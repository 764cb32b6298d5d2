/** The catalogue search shared by the lesson list and the resource list: the
    typed text is trimmed and lower-cased, an empty term matches everything,
    and otherwise some searched field must contain the term, ignoring case. */
module Search {
  import opened Text

  /** The term actually searched for (`search.trim().toLowerCase()`). */
  function SearchKey(search: string): (key: string)
    ensures NoUpper(key)
    ensures key == [] <==> forall k :: 0 <= k < |search| ==> IsSpace(search[k])
    ensures key != [] ==> !IsSpace(key[0]) && !IsSpace(key[|key| - 1])
    ensures exists i, j :: && 0 <= i <= j <= |search|
                           && (forall k :: 0 <= k < i ==> IsSpace(search[k]))
                           && (forall k :: j <= k < |search| ==> IsSpace(search[k]))
                           && key == ToLower(search[i..j])
  {
    TrimIsStrip(search);
    ToLower(Trim(search))
  }

  /** `!key || f1.toLowerCase().includes(key) || f2... ` over the searched fields. */
  predicate FieldsMatch(fields: seq<string>, key: string)
    decreases |fields|
  {
    key == [] || (fields != [] && (Contains(ToLower(fields[0]), key) || FieldsMatch(fields[1..], key)))
  }

  /** A non-empty term matches exactly when one of the lower-cased fields
      contains it; the empty term matches every record. */
  lemma {:induction false} FieldsMatchIff(fields: seq<string>, key: string)
    ensures FieldsMatch(fields, key) <==>
              key == [] || exists k :: 0 <= k < |fields| && Contains(ToLower(fields[k]), key)
    decreases |fields|
  {
    if key != [] && fields != [] {
      FieldsMatchIff(fields[1..], key);
      if exists k :: 0 <= k < |fields| && Contains(ToLower(fields[k]), key) {
        var k :| 0 <= k < |fields| && Contains(ToLower(fields[k]), key);
        if k > 0 {
          assert fields[1..][k - 1] == fields[k];
        }
      }
      if FieldsMatch(fields[1..], key) {
        var k :| 0 <= k < |fields[1..]| && Contains(ToLower(fields[1..][k]), key);
        assert fields[1..][k] == fields[k + 1];
      }
    }
  }

  /** Leading whitespace is unchanged by lower-casing. */
  lemma {:induction false} LeadingSpacesLower(s: string)
    ensures LeadingSpaces(ToLower(s)) == LeadingSpaces(s)
    decreases |s|
  {
    if s != [] {
      assert ToLower(s)[1..] == ToLower(s[1..]);
      LeadingSpacesLower(s[1..]);
    }
  }

  /** Trailing whitespace is unchanged by lower-casing. */
  lemma {:induction false} TrailingSpacesLower(s: string)
    ensures TrailingSpaces(ToLower(s)) == TrailingSpaces(s)
    decreases |s|
  {
    if s != [] {
      assert ToLower(s)[..|s| - 1] == ToLower(s[..|s| - 1]);
      TrailingSpacesLower(s[..|s| - 1]);
    }
  }

  /** Lower-casing commutes with dropping a prefix. */
  lemma LowerDrop(s: string, i: nat)
    requires i <= |s|
    ensures ToLower(s)[i..] == ToLower(s[i..])
  {
  }

  /** Lower-casing commutes with taking a prefix. */
  lemma LowerTake(s: string, j: nat)
    requires j <= |s|
    ensures ToLower(s)[..j] == ToLower(s[..j])
  {
  }

  /** Trimming and lower-casing commute. */
  lemma TrimLower(s: string)
    ensures Trim(ToLower(s)) == ToLower(Trim(s))
  {
    var i := LeadingSpaces(s);
    var rest := s[i..];
    var n := |rest| - TrailingSpaces(rest);
    var low := ToLower(s);
    LeadingSpacesLower(s);
    LowerDrop(s, i);
    var lowRest := low[i..];
    assert lowRest == ToLower(rest);
    TrailingSpacesLower(rest);
    assert Trim(low) == lowRest[..n];
    LowerTake(rest, n);
  }

  /** Case of the typed text does not matter: lower-casing it first yields
      the same term. */
  lemma SearchKeyIgnoresCase(search: string)
    ensures SearchKey(ToLower(search)) == SearchKey(search)
  {
    TrimLower(search);
    LowerOfLower(ToLower(Trim(search)));
  }

  /** Whitespace around the typed text does not matter. */
  lemma SearchKeyIgnoresPadding(search: string)
    ensures SearchKey(Trim(search)) == SearchKey(search)
  {
    TrimIdempotent(search);
  }
}
