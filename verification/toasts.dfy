/** The notification queue: toasts are appended by `showToast` and removed by
    id, either by the dismiss button or by the timer `showToast` schedules. */
module Toasts {
  import opened Wrappers
  import opened Sequences

  datatype ToastType = Success | Error | Info

  datatype Toast = Toast(id: string, message: string, kind: ToastType)

  /** `showToast`: appends one toast carrying the message; the type defaults
      to info.  The id, built from the clock and a random number in the
      application, is a parameter. */
  function ShowToast(toasts: seq<Toast>, message: string, kind: Option<ToastType>, id: string): (r: seq<Toast>)
    ensures |r| == |toasts| + 1
    ensures r[..|toasts|] == toasts
    ensures r[|toasts|].id == id && r[|toasts|].message == message
    ensures kind.None? ==> r[|toasts|].kind == Info
    ensures kind.Some? ==> r[|toasts|].kind == kind.value
  {
    toasts + [Toast(id, message, kind.GetOr(Info))]
  }

  /** `dismissToast`, and equally the scheduled auto-removal: every toast with
      the id is dropped and the others keep their order. */
  function DismissToast(toasts: seq<Toast>, id: string): (r: seq<Toast>)
    ensures IsSubsequence(r, toasts)
    ensures forall t :: t in r <==> t in toasts && t.id != id
    ensures (forall i :: 0 <= i < |toasts| ==> toasts[i].id != id) ==> r == toasts
    decreases |toasts|
  {
    if toasts == [] then []
    else if toasts[0].id != id then [toasts[0]] + DismissToast(toasts[1..], id)
    else DismissToast(toasts[1..], id)
  }

  /** Dismissal distributes over appending. */
  lemma {:induction false} DismissAppend(toasts: seq<Toast>, t: Toast, id: string)
    ensures DismissToast(toasts + [t], id) == DismissToast(toasts, id) + (if t.id == id then [] else [t])
    decreases |toasts|
  {
    if toasts != [] {
      assert (toasts + [t])[1..] == toasts[1..] + [t];
      DismissAppend(toasts[1..], t, id);
    } else {
      assert [t][1..] == [];
    }
  }

  /** When the toast's timer fires, the queue is as if the toast had never
      been shown, apart from other toasts sharing its id. */
  lemma ShowThenExpire(toasts: seq<Toast>, message: string, kind: Option<ToastType>, id: string)
    ensures DismissToast(ShowToast(toasts, message, kind, id), id) == DismissToast(toasts, id)
  {
    DismissAppend(toasts, Toast(id, message, kind.GetOr(Info)), id);
  }

  /** Dismissing the same id twice is dismissing it once. */
  lemma DismissIdempotent(toasts: seq<Toast>, id: string)
    ensures DismissToast(DismissToast(toasts, id), id) == DismissToast(toasts, id)
  {
    var r := DismissToast(toasts, id);
    assert forall i :: 0 <= i < |r| ==> r[i] in r;
  }

  /** `useToast`: the provider's value, or an error when called outside a
      provider. */
  function UseToast<C>(ctx: Option<C>): (r: Result<C, string>)
    ensures r.Failure? <==> ctx.None?
    ensures ctx.Some? ==> r == Result.Success(ctx.value)
  {
    match ctx
    case Some(c) => Result.Success(c)
    case None => Failure("useToast must be used within a ToastProvider")
  }
}
