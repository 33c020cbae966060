/** `std::collections::BinaryHeap` as the solvers use it: a bag of entries
    from which `pop` takes one that no other entry is ordered before.
    The bag is a sequence; `before(a, b)` says that `a` is popped ahead of
    `b` (for a max-heap: `a > b` in the entry type's `Ord`). */
module PriorityQueue {

  /** Irreflexive and transitive: what a derived or hand-written `Ord`
      gives for "strictly greater". */
  ghost predicate StrictOrder<T(!new)>(before: (T, T) -> bool)
  {
    && (forall a :: !before(a, a))
    && (forall a, b, c :: before(a, b) && before(b, c) ==> before(a, c))
  }

  function RemoveAt<T>(s: seq<T>, k: nat): (r: seq<T>)
    requires k < |s|
    ensures |r| == |s| - 1
    ensures multiset(r) + multiset{s[k]} == multiset(s)
    ensures forall x :: x in r ==> x in s
  {
    assert s == s[..k] + [s[k]] + s[k + 1..];
    s[..k] + s[k + 1..]
  }

  /** The index of the entry `pop` returns: no entry is ordered before it.
      Entries the order calls equal may come out in either order. */
  method IndexOfTop<T(!new)>(heap: seq<T>, before: (T, T) -> bool) returns (k: nat)
    requires |heap| > 0
    requires StrictOrder(before)
    ensures k < |heap|
    ensures forall j :: 0 <= j < |heap| ==> !before(heap[j], heap[k])
  {
    k := 0;
    var i := 1;
    while i < |heap|
      invariant k < i <= |heap|
      invariant forall j :: 0 <= j < i ==> !before(heap[j], heap[k])
    {
      if before(heap[i], heap[k]) {
        k := i;
      }
      i := i + 1;
    }
  }
}
