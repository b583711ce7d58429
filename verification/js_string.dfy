/** The two string operations the access-token gate relies on:
    `String.prototype.indexOf` and `String.prototype.replace` called with a
    string (not a regular expression) pattern and an empty replacement. */
module JsString {
  import opened Options

  /** `p` occurs in `s` starting at position `i`. */
  predicate OccursAt(s: string, p: string, i: nat) {
    i + |p| <= |s| && s[i..i + |p|] == p
  }

  /** `p` occurs somewhere in `s`. */
  ghost predicate Contains(s: string, p: string) {
    exists i: nat :: OccursAt(s, p, i)
  }

  /** The first position at or after `from` where `p` occurs in `s`
      (`s.indexOf(p, from)`, with -1 written as `None`). */
  function IndexOfFrom(s: string, p: string, from: nat): (r: Option<nat>)
    ensures r.Some? ==> from <= r.value && OccursAt(s, p, r.value)
    ensures r.Some? ==> forall j: nat :: from <= j < r.value ==> !OccursAt(s, p, j)
    ensures r.None? ==> forall j: nat :: from <= j ==> !OccursAt(s, p, j)
    decreases |s| - from
  {
    if from + |p| > |s| then None
    else if s[from..from + |p|] == p then Some(from)
    else IndexOfFrom(s, p, from + 1)
  }

  /** `s.indexOf(p)`: the first occurrence of `p` in `s`. */
  function IndexOf(s: string, p: string): (r: Option<nat>)
    ensures r.Some? ==> OccursAt(s, p, r.value)
    ensures r.Some? ==> forall j: nat :: j < r.value ==> !OccursAt(s, p, j)
    ensures r.None? <==> !Contains(s, p)
  {
    IndexOfFrom(s, p, 0)
  }

  /** `s.replace(p, "")`: only the FIRST occurrence of `p`, wherever it is, is
      removed; when `p` does not occur the string comes back whole. */
  function RemoveFirst(s: string, p: string): (r: string)
    ensures !Contains(s, p) ==> r == s
    ensures Contains(s, p) ==> |r| + |p| == |s|
    ensures IndexOf(s, p).Some? ==>
              var i := IndexOf(s, p).value;
              i <= |r| && r[..i] + p + r[i..] == s
  {
    match IndexOf(s, p)
    case None => s
    case Some(i) =>
      var r := s[..i] + s[i + |p|..];
      assert r[..i] == s[..i] && r[i..] == s[i + |p|..];
      assert s == s[..i] + s[i..i + |p|] + s[i + |p|..];
      r
  }

  /** Removing `p` changes the string exactly when `p` is non-empty and occurs. */
  lemma RemoveFirstChangesIff(s: string, p: string)
    ensures RemoveFirst(s, p) != s <==> |p| > 0 && Contains(s, p)
  {
  }

  /** A string that starts with `p` loses exactly that leading `p`. */
  lemma RemoveFirstOfPrefixed(p: string, t: string)
    ensures RemoveFirst(p + t, p) == t
  {
  }
}
