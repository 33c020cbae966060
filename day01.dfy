/** Day 1: two columns of location IDs. Part 1 sorts each column on its
    own and sums the distances between the entries that end up side by
    side. Part 2 counts how often each ID occurs in the second column and
    sums every first-column ID times its count there. */
module Day01 {

  predicate Sorted(s: seq<nat>)
  {
    forall i, j :: 0 <= i < j < |s| ==> s[i] <= s[j]
  }

  /** x put into sorted s after the entries below it. */
  function Insert(x: nat, s: seq<nat>): (r: seq<nat>)
    requires Sorted(s)
    ensures Sorted(r) && multiset(r) == multiset(s) + multiset{x}
  {
    if |s| == 0 then [x]
    else if x <= s[0] then [x] + s
    else
      var rest := Insert(x, s[1..]);
      assert s == [s[0]] + s[1..];
      LowerBound(s[0], rest);
      [s[0]] + rest
  }

  /** h below every entry of sorted rest keeps [h] + rest sorted. */
  lemma LowerBound(h: nat, rest: seq<nat>)
    requires Sorted(rest) && forall v :: v in multiset(rest) ==> h <= v
    ensures Sorted([h] + rest)
  {
    forall j | 0 <= j < |rest| ensures h <= rest[j] {
      assert rest[j] in multiset(rest);
    }
  }

  /** `.sorted()`: the same entries in ascending order. */
  function Sort(s: seq<nat>): (r: seq<nat>)
    ensures Sorted(r) && multiset(r) == multiset(s)
  {
    if |s| == 0 then []
    else
      assert s == s[..|s| - 1] + [s[|s| - 1]];
      Insert(s[|s| - 1], Sort(s[..|s| - 1]))
  }

  /** Two sorted sequences with the same entries are equal: the sorted
      order of a column is determined by its multiset. */
  lemma {:induction false} SortedUnique(a: seq<nat>, b: seq<nat>)
    requires Sorted(a) && Sorted(b) && multiset(a) == multiset(b)
    ensures a == b
    decreases |a|
  {
    if |a| > 0 {
      assert |b| == |multiset(b)| == |a|;
      assert a[0] in multiset(b) && b[0] in multiset(a);
      assert a == [a[0]] + a[1..] && b == [b[0]] + b[1..];
      assert a[0] == b[0];
      assert multiset(a[1..]) == multiset(a) - multiset{a[0]};
      assert multiset(b[1..]) == multiset(b) - multiset{b[0]};
      SortedUnique(a[1..], b[1..]);
    } else {
      assert |b| == |multiset(b)| == 0;
    }
  }

  function AbsDiff(a: nat, b: nat): nat
  {
    if a >= b then a - b else b - a
  }

  /** `zip(..).map(abs_diff).sum()`: the distances between entries side by
      side, up to the shorter sequence. */
  function Distance(xs: seq<nat>, ys: seq<nat>): nat
  {
    if |xs| == 0 || |ys| == 0 then 0
    else AbsDiff(xs[0], ys[0]) + Distance(xs[1..], ys[1..])
  }

  function Firsts(pairs: seq<(nat, nat)>): (r: seq<nat>)
    ensures |r| == |pairs| && forall i :: 0 <= i < |r| ==> r[i] == pairs[i].0
  {
    if |pairs| == 0 then [] else Firsts(pairs[..|pairs| - 1]) + [pairs[|pairs| - 1].0]
  }

  function Seconds(pairs: seq<(nat, nat)>): (r: seq<nat>)
    ensures |r| == |pairs| && forall i :: 0 <= i < |r| ==> r[i] == pairs[i].1
  {
    if |pairs| == 0 then [] else Seconds(pairs[..|pairs| - 1]) + [pairs[|pairs| - 1].1]
  }

  /** Side by side, distances that add up to 0 mean equal sequences. */
  lemma {:induction false} DistanceZero(xs: seq<nat>, ys: seq<nat>)
    requires |xs| == |ys|
    ensures Distance(xs, ys) == 0 <==> xs == ys
    decreases |xs|
  {
    if |xs| > 0 {
      DistanceZero(xs[1..], ys[1..]);
      assert xs == [xs[0]] + xs[1..] && ys == [ys[0]] + ys[1..];
    }
  }

  /** Sorted, two columns of the same length are at distance 0 exactly
      when they hold the same IDs equally often. */
  lemma SameColumns(xs: seq<nat>, ys: seq<nat>)
    requires |xs| == |ys|
    ensures Distance(Sort(xs), Sort(ys)) == 0 <==> multiset(xs) == multiset(ys)
  {
    var a, b := Sort(xs), Sort(ys);
    assert |a| == |multiset(a)| == |xs| && |b| == |multiset(b)| == |ys|;
    DistanceZero(a, b);
    if multiset(xs) == multiset(ys) {
      SortedUnique(a, b);
    }
  }

  /** `part1`: sort the columns independently, then sum the distances.
      The total is 0 exactly when both columns hold the same IDs. */
  function Part1(pairs: seq<(nat, nat)>): (r: nat)
    ensures r == 0 <==> multiset(Firsts(pairs)) == multiset(Seconds(pairs))
  {
    SameColumns(Firsts(pairs), Seconds(pairs));
    Distance(Sort(Firsts(pairs)), Sort(Seconds(pairs)))
  }

  /** `part1` sees only which IDs each column holds and how often: lines
      given in another order, or columns rearranged independently, give
      the same total. */
  lemma Part1ByMultisets(p: seq<(nat, nat)>, q: seq<(nat, nat)>)
    requires multiset(Firsts(p)) == multiset(Firsts(q))
    requires multiset(Seconds(p)) == multiset(Seconds(q))
    ensures Part1(p) == Part1(q)
  {
    SortedUnique(Sort(Firsts(p)), Sort(Firsts(q)));
    SortedUnique(Sort(Seconds(p)), Sort(Seconds(q)));
  }

  /** The fold of `part2`: each ID of the column mapped to its number of
      occurrences; an ID that does not occur has no entry. */
  function Counts(bs: seq<nat>): (m: map<nat, nat>)
    ensures forall v :: v in m <==> v in multiset(bs)
    ensures forall v :: v in m ==> m[v] == multiset(bs)[v]
  {
    if |bs| == 0 then map[]
    else
      var m := Counts(bs[..|bs| - 1]);
      var v := bs[|bs| - 1];
      assert bs == bs[..|bs| - 1] + [v];
      m[v := if v in m then m[v] + 1 else 1]
  }

  /** Each first-column ID times its count from the table, 0 when the
      table has no entry for it, summed. */
  function Weighted(ids: seq<nat>, counts: map<nat, nat>): nat
  {
    if |ids| == 0 then 0
    else
      var a := ids[|ids| - 1];
      Weighted(ids[..|ids| - 1], counts) + a * (if a in counts then counts[a] else 0)
  }


  /** Each ID times its number of occurrences in bs, summed over ids. */
  function Similarity(ids: seq<nat>, bs: seq<nat>): nat
  {
    if |ids| == 0 then 0
    else Similarity(ids[..|ids| - 1], bs) + ids[|ids| - 1] * multiset(bs)[ids[|ids| - 1]]
  }

  /** The table look-up with its 0 default gives exactly the number of
      occurrences. */
  lemma {:induction false} WeightedIsSimilarity(ids: seq<nat>, bs: seq<nat>)
    ensures Weighted(ids, Counts(bs)) == Similarity(ids, bs)
    decreases |ids|
  {
    if |ids| > 0 {
      WeightedIsSimilarity(ids[..|ids| - 1], bs);
    }
  }

  /** `part2`: it sums every first-column ID times its number of
      occurrences in the second column. */
  function Part2(pairs: seq<(nat, nat)>): (r: nat)
    ensures r == Similarity(Firsts(pairs), Seconds(pairs))
  {
    WeightedIsSimilarity(Firsts(pairs), Seconds(pairs));
    Weighted(Firsts(pairs), Counts(Seconds(pairs)))
  }
}
