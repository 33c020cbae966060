/** Day 19: arranging towels. A design is a string of stripe colours; a
    towel is a non-empty string that may be laid at any point of the design
    it matches. `can_make` decides whether towels can be laid end to end to
    spell a design, and `num_ways` counts the different ways to do it; both
    recurse on the position reached so far and memoise their answers per
    position in a table the caller supplies fresh for every design. */
module Day19 {

  /** Every towel has at least one stripe; a towel of none would make both
      recursions call themselves at the same position for ever. */
  predicate NonEmpty(towels: seq<string>)
  {
    forall t :: t in towels ==> |t| > 0
  }

  /** `can_make` without its memo table: the rest of the design from i on
      is empty, or the towels, tried in order, include one that matches at
      i and leaves a makeable rest. */
  ghost predicate Makeable(q: string, towels: seq<string>, i: nat)
    requires NonEmpty(towels) && i <= |q|
    decreases |q| - i, |towels| + 1
  {
    i >= |q| || MakeableFrom(q, towels, i, 0)
  }

  /** Towels j onwards include one that matches at i and leaves a
      makeable rest. */
  ghost predicate MakeableFrom(q: string, towels: seq<string>, i: nat, j: nat)
    requires NonEmpty(towels) && i < |q| && j <= |towels|
    decreases |q| - i, |towels| - j
  {
    && j < |towels|
    && ((Fits(q, towels, i, j) && Makeable(q, towels, i + |towels[j]|)) || MakeableFrom(q, towels, i, j + 1))
  }

  /** Towel k matches the design at position i. */
  predicate Fits(q: string, towels: seq<string>, i: nat, k: nat)
    requires i <= |q| && k < |towels|
  {
    towels[k] <= q[i..]
  }

  lemma {:induction false} MakeableFromIff(q: string, towels: seq<string>, i: nat, j: nat)
    requires NonEmpty(towels) && i < |q| && j <= |towels|
    ensures MakeableFrom(q, towels, i, j) <==>
              exists k :: j <= k < |towels| && Fits(q, towels, i, k) && Makeable(q, towels, i + |towels[k]|)
    decreases |towels| - j
  {
    if j < |towels| {
      MakeableFromIff(q, towels, i, j + 1);
    }
  }

  /** A design can be made from i on exactly when i is at its end or some
      towel is a prefix of the rest and the rest after it can be made. */
  lemma MakeableIff(q: string, towels: seq<string>, i: nat)
    requires NonEmpty(towels) && i <= |q|
    ensures Makeable(q, towels, i) <==>
              i >= |q| || exists t :: t in towels && t <= q[i..] && Makeable(q, towels, i + |t|)
  {
    if i < |q| {
      MakeableFromIff(q, towels, i, 0);
      if exists t :: t in towels && t <= q[i..] && Makeable(q, towels, i + |t|) {
        var t :| t in towels && t <= q[i..] && Makeable(q, towels, i + |t|);
        var k :| 0 <= k < |towels| && towels[k] == t;
        assert Fits(q, towels, i, k);
      }
    }
  }

  /** `num_ways` without its memo table: one way to finish an empty rest,
      otherwise the ways summed over the matching towels. */
  ghost function Ways(q: string, towels: seq<string>, i: nat): nat
    requires NonEmpty(towels) && i <= |q|
    decreases |q| - i, |towels| + 1
  {
    if i >= |q| then 1 else WaysWith(q, towels, i, |towels|)
  }

  /** The ways summed over the first n towels. */
  ghost function WaysWith(q: string, towels: seq<string>, i: nat, n: nat): nat
    requires NonEmpty(towels) && i < |q| && n <= |towels|
    decreases |q| - i, n
  {
    if n == 0 then 0
    else
      WaysWith(q, towels, i, n - 1)
      + (if Fits(q, towels, i, n - 1) then Ways(q, towels, i + |towels[n - 1]|) else 0)
  }

  /** A design can be made exactly when there is at least one way to make
      it. */
  lemma {:induction false} MakeableIffWays(q: string, towels: seq<string>, i: nat)
    requires NonEmpty(towels) && i <= |q|
    ensures Makeable(q, towels, i) <==> Ways(q, towels, i) > 0
    decreases |q| - i, |towels| + 1
  {
    if i < |q| {
      WaysWithPositive(q, towels, i, |towels|);
      MakeableFromIff(q, towels, i, 0);
    }
  }

  /** The first n towels give a way exactly when one of them matches and
      leaves a makeable rest. */
  lemma {:induction false} WaysWithPositive(q: string, towels: seq<string>, i: nat, n: nat)
    requires NonEmpty(towels) && i < |q| && n <= |towels|
    ensures WaysWith(q, towels, i, n) > 0 <==>
              exists k :: 0 <= k < n && Fits(q, towels, i, k) && Makeable(q, towels, i + |towels[k]|)
    decreases |q| - i, n
  {
    if n > 0 {
      WaysWithPositive(q, towels, i, n - 1);
      if Fits(q, towels, i, n - 1) {
        MakeableIffWays(q, towels, i + |towels[n - 1]|);
      }
    }
  }

  /** The memo table of `can_make` for one design: every entry is the
      uncached answer at its position. */
  ghost predicate MakeableMemo(q: string, towels: seq<string>, cache: map<nat, bool>)
    requires NonEmpty(towels)
  {
    forall k :: k in cache ==> k <= |q| && cache[k] == Makeable(q, towels, k)
  }

  /** `can_make`: a table hit first, then the end of the design, then the
      towels in order, stopping at the first that leads to a makeable rest.
      The answer at a position inside the design is recorded. */
  method CanMake(q: string, towels: seq<string>, index: nat, cache0: map<nat, bool>) returns (result: bool, cache: map<nat, bool>)
    requires NonEmpty(towels) && index <= |q| && MakeableMemo(q, towels, cache0)
    ensures result == Makeable(q, towels, index)
    ensures MakeableMemo(q, towels, cache) && cache0.Keys <= cache.Keys
    ensures index < |q| ==> index in cache
    decreases |q| - index
  {
    cache := cache0;
    if index in cache {
      return cache[index], cache;
    }
    if index >= |q| {
      return true, cache;
    }
    for j := 0 to |towels|
      invariant MakeableMemo(q, towels, cache) && cache0.Keys <= cache.Keys
      invariant Makeable(q, towels, index) == MakeableFrom(q, towels, index, j)
    {
      if towels[j] <= q[index..] {
        var rest;
        rest, cache := CanMake(q, towels, index + |towels[j]|, cache);
        if rest {
          cache := cache[index := true];
          return true, cache;
        }
      }
    }
    cache := cache[index := false];
    return false, cache;
  }

  /** The memo table of `num_ways` for one design. */
  ghost predicate WaysMemo(q: string, towels: seq<string>, cache: map<nat, nat>)
    requires NonEmpty(towels)
  {
    forall k :: k in cache ==> k <= |q| && cache[k] == Ways(q, towels, k)
  }

  /** `num_ways`: a table hit first, then 1 at the end of the design, then
      the sum over the matching towels, which is recorded. */
  method NumWays(q: string, towels: seq<string>, index: nat, cache0: map<nat, nat>) returns (answer: nat, cache: map<nat, nat>)
    requires NonEmpty(towels) && index <= |q| && WaysMemo(q, towels, cache0)
    ensures answer == Ways(q, towels, index)
    ensures WaysMemo(q, towels, cache) && cache0.Keys <= cache.Keys
    ensures index < |q| ==> index in cache
    decreases |q| - index
  {
    cache := cache0;
    if index in cache {
      return cache[index], cache;
    }
    if index >= |q| {
      return 1, cache;
    }
    answer := 0;
    for j := 0 to |towels|
      invariant WaysMemo(q, towels, cache) && cache0.Keys <= cache.Keys
      invariant answer == WaysWith(q, towels, index, j)
    {
      if towels[j] <= q[index..] {
        var n;
        n, cache := NumWays(q, towels, index + |towels[j]|, cache);
        answer := answer + n;
      }
    }
    cache := cache[index := answer];
  }

  /** The number of designs that can be made. */
  ghost function MakeableCount(designs: seq<string>, towels: seq<string>): nat
    requires NonEmpty(towels)
  {
    if |designs| == 0 then 0
    else
      MakeableCount(designs[..|designs| - 1], towels)
      + (if Makeable(designs[|designs| - 1], towels, 0) then 1 else 0)
  }

  /** The ways summed over all designs. */
  ghost function TotalWays(designs: seq<string>, towels: seq<string>): nat
    requires NonEmpty(towels)
  {
    if |designs| == 0 then 0
    else TotalWays(designs[..|designs| - 1], towels) + Ways(designs[|designs| - 1], towels, 0)
  }

  /** Every makeable design has at least one way: part 1's answer never
      exceeds part 2's. */
  lemma {:induction false} CountAtMostWays(designs: seq<string>, towels: seq<string>)
    requires NonEmpty(towels)
    ensures MakeableCount(designs, towels) <= TotalWays(designs, towels)
    decreases |designs|
  {
    if |designs| > 0 {
      CountAtMostWays(designs[..|designs| - 1], towels);
      MakeableIffWays(designs[|designs| - 1], towels, 0);
    }
  }

  /** `part1`: count the designs `can_make` accepts, each with a fresh
      table. */
  method Part1(designs: seq<string>, towels: seq<string>) returns (answer: nat)
    requires NonEmpty(towels)
    ensures answer == MakeableCount(designs, towels)
  {
    answer := 0;
    for i := 0 to |designs|
      invariant answer == MakeableCount(designs[..i], towels)
    {
      var ok, cache := CanMake(designs[i], towels, 0, map[]);
      assert designs[..i + 1][..i] == designs[..i];
      if ok {
        answer := answer + 1;
      }
    }
    assert designs[..|designs|] == designs;
  }

  /** `part2`: sum `num_ways` over the designs, each with a fresh table. */
  method Part2(designs: seq<string>, towels: seq<string>) returns (answer: nat)
    requires NonEmpty(towels)
    ensures answer == TotalWays(designs, towels)
  {
    answer := 0;
    for i := 0 to |designs|
      invariant answer == TotalWays(designs[..i], towels)
    {
      var n, cache := NumWays(designs[i], towels, 0, map[]);
      assert designs[..i + 1][..i] == designs[..i];
      answer := answer + n;
    }
    assert designs[..|designs|] == designs;
  }
}
