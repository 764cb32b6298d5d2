/** The string primitives the application relies on, restricted to ASCII:
    `toLowerCase`, `trim`, `includes` and the `/\s+/g` replacement used to
    derive form-control ids. */
module Text {

  /** The ASCII members of JavaScript's `\s` class (also what `trim` strips):
      space, tab, line feed, vertical tab, form feed and carriage return. */
  predicate IsSpace(c: char) {
    c == ' ' || c == '\t' || c == '\n' || c == '\U{B}' || c == '\U{C}' || c == '\r'
  }

  predicate IsUpper(c: char) {
    'A' <= c <= 'Z'
  }

  predicate NoUpper(s: string) {
    forall k :: 0 <= k < |s| ==> !IsUpper(s[k])
  }

  predicate NoSpace(s: string) {
    forall k :: 0 <= k < |s| ==> !IsSpace(s[k])
  }

  /** `toLowerCase` on one character: folds A-Z, leaves everything else. */
  function LowerChar(c: char): (r: char)
    ensures !IsUpper(r)
    ensures IsUpper(c) ==> 'a' <= r <= 'z'
    ensures !IsUpper(c) ==> r == c
    ensures IsSpace(r) <==> IsSpace(c)
  {
    if IsUpper(c) then (c as int + 32) as char else c
  }

  /** `toLowerCase` on a string: same length, folded position by position. */
  function ToLower(s: string): (r: string)
    ensures |r| == |s|
    ensures forall k :: 0 <= k < |s| ==> r[k] == LowerChar(s[k])
    ensures NoUpper(r)
  {
    seq(|s|, k requires 0 <= k < |s| => LowerChar(s[k]))
  }

  /** Lower-casing a string that has no capitals changes nothing, so lower-casing
      is idempotent. */
  lemma LowerOfLower(s: string)
    requires NoUpper(s)
    ensures ToLower(s) == s
  {
  }

  /** Length of the maximal whitespace prefix. */
  function LeadingSpaces(s: string): (n: nat)
    ensures n <= |s|
    ensures forall k :: 0 <= k < n ==> IsSpace(s[k])
    ensures n < |s| ==> !IsSpace(s[n])
    decreases |s|
  {
    if s != [] && IsSpace(s[0]) then 1 + LeadingSpaces(s[1..]) else 0
  }

  /** Length of the maximal whitespace suffix. */
  function TrailingSpaces(s: string): (n: nat)
    ensures n <= |s|
    ensures forall k :: |s| - n <= k < |s| ==> IsSpace(s[k])
    ensures n < |s| ==> !IsSpace(s[|s| - 1 - n])
    decreases |s|
  {
    if s != [] && IsSpace(s[|s| - 1]) then 1 + TrailingSpaces(s[..|s| - 1]) else 0
  }

  /** `String.prototype.trim`: what is left after removing the maximal
      whitespace prefix and suffix. */
  function Trim(s: string): (r: string)
    ensures |r| <= |s|
    ensures r != [] ==> !IsSpace(r[0]) && !IsSpace(r[|r| - 1])
  {
    var rest := s[LeadingSpaces(s)..];
    rest[..|rest| - TrailingSpaces(rest)]
  }

  /** `Trim` keeps a contiguous middle of `s` and removes only whitespace; it
      is empty exactly when `s` is blank. */
  lemma TrimIsStrip(s: string)
    ensures exists i, j :: 0 <= i <= j <= |s| && Trim(s) == s[i..j] &&
                           (forall k :: 0 <= k < i ==> IsSpace(s[k])) &&
                           (forall k :: j <= k < |s| ==> IsSpace(s[k]))
    ensures Trim(s) == [] <==> forall k :: 0 <= k < |s| ==> IsSpace(s[k])
  {
    var i := LeadingSpaces(s);
    var rest := s[i..];
    var j := i + |rest| - TrailingSpaces(rest);
    assert Trim(s) == s[i..j];
    assert forall k :: j <= k < |s| ==> s[k] == rest[k - i];
  }

  /** Trimming twice is trimming once. */
  lemma TrimIdempotent(s: string)
    ensures Trim(Trim(s)) == Trim(s)
  {
    var r := Trim(s);
    if r != [] {
      assert LeadingSpaces(r) == 0;
      assert TrailingSpaces(r) == 0;
    }
  }

  /** `s.includes(q)`: `q` occurs in `s` starting at some position. */
  predicate Contains(s: string, q: string)
    decreases |s|
  {
    q <= s || (s != [] && Contains(s[1..], q))
  }

  /** An occurrence at position `i` is found by `Contains`. */
  lemma {:induction false} OccurrenceContains(s: string, q: string, i: nat)
    requires i <= |s| && q <= s[i..]
    ensures Contains(s, q)
    decreases i
  {
    if i == 0 {
      assert s[0..] == s;
    } else {
      assert s[1..][i - 1..] == s[i..];
      OccurrenceContains(s[1..], q, i - 1);
    }
  }

  /** `Contains` only holds when there is an occurrence at some position. */
  lemma {:induction false} ContainsOccurrence(s: string, q: string) returns (i: nat)
    requires Contains(s, q)
    ensures i <= |s| && q <= s[i..]
    decreases |s|
  {
    if q <= s {
      assert s[0..] == s;
      i := 0;
    } else {
      var j := ContainsOccurrence(s[1..], q);
      assert s[1..][j..] == s[j + 1..];
      i := j + 1;
    }
  }

  /** `Contains` agrees with the positional definition of substring occurrence. */
  lemma ContainsIff(s: string, q: string)
    ensures Contains(s, q) <==> exists i :: 0 <= i <= |s| && q <= s[i..]
  {
    if Contains(s, q) {
      var i := ContainsOccurrence(s, q);
    }
    forall i | 0 <= i <= |s| && q <= s[i..]
      ensures Contains(s, q)
    {
      OccurrenceContains(s, q, i);
    }
  }

  /** The empty string occurs in every string, so an empty search term matches
      everything. */
  lemma ContainsEmpty(s: string)
    ensures Contains(s, "")
  {
  }

  /** Replaces every maximal run of whitespace by a single `-`
      (`replace(/\s+/g, "-")`). */
  function CollapseSpaces(s: string): (r: string)
    ensures NoSpace(r)
    ensures |r| <= |s|
    ensures NoSpace(s) ==> r == s
    ensures NoUpper(s) ==> NoUpper(r)
    decreases |s|
  {
    if s == [] then []
    else if IsSpace(s[0]) then "-" + CollapseSpaces(s[LeadingSpaces(s)..])
    else [s[0]] + CollapseSpaces(s[1..])
  }

  /** A whitespace run followed by the end or by a non-space character. */
  predicate IsRun(sp: string, t: string) {
    && sp != []
    && (forall k :: 0 <= k < |sp| ==> IsSpace(sp[k]))
    && (t == [] || !IsSpace(t[0]))
  }

  /** The leading whitespace of a run followed by `t` is exactly the run. */
  lemma LeadingSpacesOfRun(sp: string, t: string)
    requires IsRun(sp, t)
    ensures LeadingSpaces(sp + t) == |sp|
  {
    var n := LeadingSpaces(sp + t);
    assert forall k :: 0 <= k < |sp| ==> (sp + t)[k] == sp[k];
    if t != [] {
      assert (sp + t)[|sp|] == t[0];
    }
  }

  /** A character that is not whitespace is copied unchanged. */
  lemma CollapseWordChar(c: char, rest: string)
    requires !IsSpace(c)
    ensures CollapseSpaces([c] + rest) == [c] + CollapseSpaces(rest)
  {
    assert ([c] + rest)[1..] == rest;
  }

  /** A run at the front becomes one `-` before the collapsed rest. */
  lemma CollapseLeadingRun(sp: string, t: string)
    requires IsRun(sp, t)
    ensures CollapseSpaces(sp + t) == "-" + CollapseSpaces(t)
  {
    LeadingSpacesOfRun(sp, t);
    assert (sp + t)[0] == sp[0];
    assert (sp + t)[|sp|..] == t;
  }

  /** Splitting the first character off a three-part text. */
  lemma ConsSplit(w: string, x: string, y: string)
    requires w != []
    ensures w + x + y == [w[0]] + (w[1..] + x + y)
  {
    assert w == [w[0]] + w[1..];
  }

  /** One step of `CollapseRun`: a word character in front of a collapsed
      run stays in front of it. */
  lemma CollapseRunStep(w: string, sp: string, t: string)
    requires w != [] && !IsSpace(w[0])
    requires CollapseSpaces(w[1..] + sp + t) == w[1..] + "-" + CollapseSpaces(t)
    ensures CollapseSpaces(w + sp + t) == w + "-" + CollapseSpaces(t)
  {
    var rest := w[1..] + sp + t;
    var c := CollapseSpaces(t);
    calc {
      CollapseSpaces(w + sp + t);
      { ConsSplit(w, sp, t); }
      CollapseSpaces([w[0]] + rest);
      { CollapseWordChar(w[0], rest); }
      [w[0]] + CollapseSpaces(rest);
      [w[0]] + (w[1..] + "-" + c);
      { ConsSplit(w, "-", c); }
      w + "-" + c;
    }
  }

  /** A maximal whitespace run becomes exactly one `-`: the text before it is
      kept, and the text after it is collapsed in turn. */
  lemma {:induction false} CollapseRun(w: string, sp: string, t: string)
    requires NoSpace(w)
    requires IsRun(sp, t)
    ensures CollapseSpaces(w + sp + t) == w + "-" + CollapseSpaces(t)
    decreases |w|
  {
    if w == [] {
      assert w + sp + t == sp + t;
      CollapseLeadingRun(sp, t);
    } else {
      CollapseRun(w[1..], sp, t);
      CollapseRunStep(w, sp, t);
    }
  }

  /** The id derived from a label: lower-cased, whitespace runs collapsed to
      `-`. */
  function Slug(caption: string): (r: string)
    ensures NoSpace(r)
    ensures NoUpper(r)
    ensures |r| <= |caption|
    ensures NoSpace(caption) ==> r == ToLower(caption)
  {
    CollapseSpaces(ToLower(caption))
  }

  /** In a derived id, a maximal whitespace run of the label becomes one `-`
      between the lower-cased text before it and the id of the text after it. */
  lemma SlugRun(w: string, sp: string, t: string)
    requires NoSpace(w)
    requires IsRun(sp, t)
    ensures Slug(w + sp + t) == ToLower(w) + "-" + Slug(t)
  {
    var lw, lsp, lt := ToLower(w), ToLower(sp), ToLower(t);
    assert ToLower(w + sp + t) == lw + lsp + lt;
    assert lt != [] ==> lt[0] == LowerChar(t[0]);
    assert IsRun(lsp, lt);
    CollapseRun(lw, lsp, lt);
  }

  /** Slugging a slug changes nothing. */
  lemma SlugIdempotent(caption: string)
    ensures Slug(Slug(caption)) == Slug(caption)
  {
    var s := Slug(caption);
    LowerOfLower(s);
  }
}
