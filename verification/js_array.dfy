/**
 The index arithmetic of JavaScript's `Array.prototype.splice` and
 `Array.prototype.slice`, which the legend relies on: negative positions count
 back from the end, positions past either end are clamped, and an undefined
 position reads as 0 for a splice start and as the length for a slice end.
 */
module JsArray {
  import opened Wrappers
  import opened Sequences

  /** A relative position normalised into `[0, len]`. */
  function RelativeIndex(k: int, len: nat): (r: nat)
    ensures r <= len
    ensures 0 <= k <= len ==> r == k
    ensures k > len ==> r == len
    ensures k < 0 && len + k >= 0 ==> r == len + k
    ensures len + k < 0 ==> r == 0
  {
    if k < 0 then (if len + k < 0 then 0 else len + k)
    else if k > len then len
    else k
  }

  /** The start position `splice(start, ...)` uses; `undefined` converts to 0. */
  function SpliceStart(start: Option<int>, len: nat): (r: nat)
    ensures r <= len
  {
    match start
    case None => 0
    case Some(k) => RelativeIndex(k, len)
  }

  /** The end position `slice(0, end)` uses; an undefined end means the whole array. */
  function SliceEnd(end: Option<int>, len: nat): (r: nat)
    ensures r <= len
    ensures end.None? ==> r == len
    ensures end.Some? ==> r == RelativeIndex(end.value, len)
  {
    match end
    case None => len
    case Some(k) => RelativeIndex(k, len)
  }

  /** `s` with position `k` removed. */
  function Without<T>(s: seq<T>, k: nat): seq<T>
    requires k < |s|
  {
    s[..k] + s[k + 1..]
  }

  /** `s` with `x` placed at position `k`, everything from `k` on moving one place right. */
  function InsertAt<T>(s: seq<T>, k: nat, x: T): (r: seq<T>)
    requires k <= |s|
    ensures |r| == |s| + 1
    ensures r[k] == x
    ensures Without(r, k) == s
    ensures multiset(r) == multiset(s) + multiset{x}
  {
    var r := s[..k] + [x] + s[k..];
    assert r[..k] == s[..k] && r[k + 1..] == s[k..];
    assert s == s[..k] + s[k..];
    r
  }

  /**
   The array `s` after `s.splice(start, 0, x)`: `x` is inserted at the
   normalised start, every existing element keeps its relative order, and a
   start past the end appends.
   */
  function SpliceInsert<T>(s: seq<T>, start: Option<int>, x: T): (r: seq<T>)
    ensures |r| == |s| + 1
    ensures r[SpliceStart(start, |s|)] == x
    ensures Without(r, SpliceStart(start, |s|)) == s
    ensures start.None? ==> r == [x] + s
    ensures (start.Some? && start.value >= |s|) ==> r == s + [x]
    ensures multiset(r) == multiset(s) + multiset{x}
  {
    var r := InsertAt(s, SpliceStart(start, |s|), x);
    assert start.None? ==> r == [x] + s;
    assert (start.Some? && start.value >= |s|) ==> r == s + [x];
    r
  }

  /** Inserting an element not yet present keeps a duplicate-free sequence duplicate-free. */
  lemma InsertAtDistinct<T>(s: seq<T>, k: nat, x: T)
    requires k <= |s|
    requires Distinct(s) && x !in s
    ensures Distinct(InsertAt(s, k, x))
  {
    var r := InsertAt(s, k, x);
    assert forall i :: 0 <= i < |r| ==> r[i] == (if i < k then s[i] else if i == k then x else s[i - 1]);
  }
}
