/** The id shared by a form control and its label in the `Input` and
    `Select` wrappers. */
module FormControls {
  import opened Wrappers
  import opened Text

  /** `id ?? name ?? slug(label)`: an explicit id wins even when it is empty,
      since `??` only falls through on a missing value. */
  function ControlId(id: Option<string>, name: Option<string>, caption: string): (r: string)
    ensures id.Some? ==> r == id.value
    ensures id.None? && name.Some? ==> r == name.value
    ensures id.None? && name.None? ==> NoSpace(r) && NoUpper(r) && |r| <= |caption|
    ensures id.None? && name.None? ==> r == Slug(caption)
  {
    match id
    case Some(explicit) => explicit
    case None =>
      match name
      case Some(n) => n
      case None => Slug(caption)
  }

  /** A derived id, used as a label, derives itself again. */
  lemma DerivedIdIsFixed(caption: string)
    ensures ControlId(None, None, ControlId(None, None, caption)) == ControlId(None, None, caption)
  {
    SlugIdempotent(caption);
  }

  /** A label without whitespace derives its lower-cased self. */
  lemma DerivedIdOfWord(caption: string)
    requires NoSpace(caption)
    ensures ControlId(None, None, caption) == ToLower(caption)
  {
  }

  /** Each maximal whitespace run in the label becomes one `-` in the derived
      id, between the lower-cased word before it and the id of the rest. */
  lemma ControlIdRun(w: string, sp: string, t: string)
    requires NoSpace(w)
    requires IsRun(sp, t)
    ensures ControlId(None, None, w + sp + t) == ToLower(w) + "-" + ControlId(None, None, t)
  {
    SlugRun(w, sp, t);
  }

  /** The label's `htmlFor` and the control's `id`. */
  datatype ControlIds = ControlIds(htmlFor: string, elementId: string)

  /** The ids a wrapper renders: `Input` and `Select` both derive one id and
      give it to the label's `htmlFor` and to the control itself, so the label
      always points at its control. */
  function LabelledControl(id: Option<string>, name: Option<string>, caption: string): (r: ControlIds)
    ensures r.htmlFor == r.elementId
    ensures id.Some? ==> r.elementId == id.value
    ensures id.None? && name.Some? ==> r.elementId == name.value
    ensures id.None? && name.None? ==> NoSpace(r.elementId) && NoUpper(r.elementId)
    ensures id.None? && name.None? ==> r.elementId == Slug(caption)
  {
    var derived := ControlId(id, name, caption);
    ControlIds(derived, derived)
  }
}
