/** The two array operations the route handlers rely on, over immutable
    sequences: `Array.prototype.findIndex` and `Array.prototype.splice(start, 1)`
    for a non-negative `start`. */
module JsArray {
  import opened Options

  /** The first index at or after `from` whose element satisfies `p`. */
  function FindIndexFrom<T>(s: seq<T>, p: T -> bool, from: nat): (r: Option<nat>)
    ensures r.Some? ==> from <= r.value < |s| && p(s[r.value])
    ensures r.Some? ==> forall j :: from <= j < r.value ==> !p(s[j])
    ensures r.None? ==> forall j :: from <= j < |s| ==> !p(s[j])
    decreases |s| - from
  {
    if from >= |s| then None
    else if p(s[from]) then Some(from)
    else FindIndexFrom(s, p, from + 1)
  }

  /** `s.findIndex(p)`, with -1 written as `None`. */
  function FindIndex<T>(s: seq<T>, p: T -> bool): (r: Option<nat>)
    ensures r.Some? ==> r.value < |s| && p(s[r.value])
    ensures r.Some? ==> forall j :: 0 <= j < r.value ==> !p(s[j])
    ensures r.None? <==> forall j :: 0 <= j < |s| ==> !p(s[j])
  {
    FindIndexFrom(s, p, 0)
  }

  /** `s.splice(start, 1)` applied to the array, returning the array that is
      left: the element at `start` is removed and the later ones shift left by
      one; a `start` past the end removes nothing. */
  function Splice<T>(s: seq<T>, start: nat): (r: seq<T>)
    ensures |r| == if start < |s| then |s| - 1 else |s|
    ensures forall j :: 0 <= j < |r| && j < start ==> r[j] == s[j]
    ensures forall j :: start <= j < |r| ==> r[j] == s[j + 1]
  {
    if start < |s| then s[..start] + s[start + 1..] else s
  }

  /** Splicing out an element keeps every other element: the removed one and
      the remaining ones together are the original multiset. */
  lemma SplicePermutation<T>(s: seq<T>, start: nat)
    requires start < |s|
    ensures multiset(Splice(s, start)) + multiset{s[start]} == multiset(s)
  {
    assert s == s[..start] + [s[start]] + s[start + 1..];
  }

  /** Putting the removed element back where it was restores the array. */
  lemma SpliceReinsert<T>(s: seq<T>, start: nat)
    requires start < |s|
    ensures Splice(s, start)[..start] + [s[start]] + Splice(s, start)[start..] == s
  {
  }
}
