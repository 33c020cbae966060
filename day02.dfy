/** Day 2: reactor reports. A report is a row of levels; it is safe when
    the differences between neighbouring levels are all between -3 and -1
    or all between 1 and 3. With the problem dampener a report passes when
    removing one of its levels leaves a safe report. */
module Day02 {

  /** The differences between neighbouring levels, `input[i] - input[i-1]`
      for every index after the first. */
  function Deltas(input: seq<int>): (d: seq<int>)
    ensures |d| == if |input| == 0 then 0 else |input| - 1
    ensures forall i :: 0 <= i < |d| ==> d[i] == input[i + 1] - input[i]
  {
    if |input| <= 1 then []
    else Deltas(input[..|input| - 1]) + [input[|input| - 1] - input[|input| - 2]]
  }

  /** Every difference lies in [lo, hi]. */
  predicate AllIn(deltas: seq<int>, lo: int, hi: int)
  {
    forall i :: 0 <= i < |deltas| ==> lo <= deltas[i] <= hi
  }

  /** `is_safe`: all differences in [-3, -1], or all in [1, 3]. */
  predicate Safe(input: seq<int>)
  {
    AllIn(Deltas(input), -3, -1) || AllIn(Deltas(input), 1, 3)
  }

  /** `is_safe`: push the differences one index at a time, skipping index
      0, then test the two ranges. */
  method IsSafe(input: seq<int>) returns (safe: bool)
    ensures safe == Safe(input)
  {
    var deltas: seq<int> := [];
    for index := 0 to |input|
      invariant deltas == Deltas(input[..index])
    {
      if index == 0 {
        continue;
      }
      DeltasGrow(input, index);
      deltas := deltas + [input[index] - input[index - 1]];
    }
    assert input[..|input|] == input;
    safe := AllIn(deltas, -3, -1) || AllIn(deltas, 1, 3);
  }

  /** One more level adds its difference from the level before. */
  lemma DeltasGrow(input: seq<int>, k: nat)
    requires 0 < k < |input|
    ensures Deltas(input[..k + 1]) == Deltas(input[..k]) + [input[k] - input[k - 1]]
  {
    assert input[..k + 1][..k] == input[..k];
  }

  /** Strictly rising, by at most 3 between neighbours. */
  predicate GentlyRising(input: seq<int>)
  {
    && (forall i, j :: 0 <= i < j < |input| ==> input[i] < input[j])
    && (forall i :: 0 <= i < |input| - 1 ==> input[i + 1] <= input[i] + 3)
  }

  /** Strictly falling, by at most 3 between neighbours. */
  predicate GentlyFalling(input: seq<int>)
  {
    && (forall i, j :: 0 <= i < j < |input| ==> input[i] > input[j])
    && (forall i :: 0 <= i < |input| - 1 ==> input[i + 1] >= input[i] - 3)
  }

  /** Rising steps make a rising report: level i is below level j. */
  lemma {:induction false} RisingSteps(input: seq<int>, i: nat, j: nat)
    requires AllIn(Deltas(input), 1, 3) && i < j < |input|
    ensures input[i] < input[j]
    decreases j - i
  {
    assert Deltas(input)[j - 1] == input[j] - input[j - 1];
    if i < j - 1 {
      RisingSteps(input, i, j - 1);
    }
  }

  /** Falling steps make a falling report: level i is above level j. */
  lemma {:induction false} FallingSteps(input: seq<int>, i: nat, j: nat)
    requires AllIn(Deltas(input), -3, -1) && i < j < |input|
    ensures input[i] > input[j]
    decreases j - i
  {
    assert Deltas(input)[j - 1] == input[j] - input[j - 1];
    if i < j - 1 {
      FallingSteps(input, i, j - 1);
    }
  }

  /** A report is safe exactly when its levels rise strictly, or fall
      strictly, never by more than 3 between neighbours. */
  lemma SafeIff(input: seq<int>)
    ensures Safe(input) <==> GentlyRising(input) || GentlyFalling(input)
  {
    var d := Deltas(input);
    if AllIn(d, 1, 3) {
      forall i, j | 0 <= i < j < |input| ensures input[i] < input[j] {
        RisingSteps(input, i, j);
      }
    }
    if AllIn(d, -3, -1) {
      forall i, j | 0 <= i < j < |input| ensures input[i] > input[j] {
        FallingSteps(input, i, j);
      }
    }
    if GentlyRising(input) {
      forall i | 0 <= i < |d| ensures 1 <= d[i] <= 3 {
        assert input[i] < input[i + 1];
      }
    }
    if GentlyFalling(input) {
      forall i | 0 <= i < |d| ensures -3 <= d[i] <= -1 {
        assert input[i] > input[i + 1];
      }
    }
  }

  /** `[&x[0..i], &x[i + 1..]].concat()`: the report without level i. */
  function Remove(x: seq<int>, i: nat): seq<int>
    requires i < |x|
  {
    x[..i] + x[i + 1..]
  }

  /** Some single level can be removed to leave a safe report. */
  ghost predicate Dampened(x: seq<int>)
  {
    exists i :: 0 <= i < |x| && Safe(Remove(x, i))
  }

  /** The filter of `part2`: try each level in turn and stop at the first
      whose removal leaves a safe report. */
  method Tolerates(x: seq<int>) returns (ok: bool)
    ensures ok == Dampened(x)
  {
    for i := 0 to |x|
      invariant forall k :: 0 <= k < i ==> !Safe(Remove(x, k))
    {
      var slicedInput := x[0..i] + x[i + 1..];
      assert slicedInput == Remove(x, i);
      var safe := IsSafe(slicedInput);
      if safe {
        return true;
      }
    }
    return false;
  }

  /** Dropping the last level keeps a report safe, so every safe report
      with a level passes the dampener. */
  lemma SafeIsDampened(x: seq<int>)
    requires Safe(x) && |x| >= 1
    ensures Dampened(x)
  {
    var r := Remove(x, |x| - 1);
    assert r == x[..|x| - 1];
    assert forall k :: 0 <= k < |Deltas(r)| ==> Deltas(r)[k] == Deltas(x)[k];
    assert Safe(r);
  }

  /** An empty report has no differences and is safe, but has no level to
      remove, so the dampener rejects it; one level is safe both ways. */
  lemma ShortReports(v: int)
    ensures Safe([]) && !Dampened([])
    ensures Safe([v]) && Dampened([v])
  {
    assert Remove([v], 0) == [];
  }

  /** `part1`: the number of safe reports. */
  function SafeCount(reports: seq<seq<int>>): nat
  {
    if |reports| == 0 then 0
    else SafeCount(reports[..|reports| - 1]) + if Safe(reports[|reports| - 1]) then 1 else 0
  }

  /** `part1`: count the reports `is_safe` passes. */
  method Part1(reports: seq<seq<int>>) returns (numSafe: nat)
    ensures numSafe == SafeCount(reports)
  {
    numSafe := 0;
    for r := 0 to |reports|
      invariant numSafe == SafeCount(reports[..r])
    {
      var safe := IsSafe(reports[r]);
      assert reports[..r + 1][..r] == reports[..r];
      if safe {
        numSafe := numSafe + 1;
      }
    }
    assert reports[..|reports|] == reports;
  }

  /** The number of reports the dampener passes. */
  ghost function DampenedCount(reports: seq<seq<int>>): nat
  {
    if |reports| == 0 then 0
    else DampenedCount(reports[..|reports| - 1]) + if Dampened(reports[|reports| - 1]) then 1 else 0
  }

  /** `part2`: count the reports `Tolerates` passes. */
  method Part2(reports: seq<seq<int>>) returns (numSafe: nat)
    ensures numSafe == DampenedCount(reports)
  {
    numSafe := 0;
    for r := 0 to |reports|
      invariant numSafe == DampenedCount(reports[..r])
    {
      var ok := Tolerates(reports[r]);
      assert reports[..r + 1][..r] == reports[..r];
      if ok {
        numSafe := numSafe + 1;
      }
    }
    assert reports[..|reports|] == reports;
  }

  /** With no empty report the dampener passes at least the safe ones. */
  lemma {:induction false} SafeCountAtMostDampened(reports: seq<seq<int>>)
    requires forall r :: r in reports ==> |r| >= 1
    ensures SafeCount(reports) <= DampenedCount(reports)
    decreases |reports|
  {
    if |reports| > 0 {
      var last := reports[|reports| - 1];
      SafeCountAtMostDampened(reports[..|reports| - 1]);
      if Safe(last) {
        SafeIsDampened(last);
      }
    }
  }

  /** The first and last reports of the sample are safe. */
  lemma SampleSafe()
    ensures Safe([7, 6, 4, 2, 1]) && Safe([1, 3, 6, 7, 9])
  {
    assert Deltas([7, 6, 4, 2, 1]) == [-1, -2, -2, -1];
    assert Deltas([1, 3, 6, 7, 9]) == [2, 3, 1, 2];
  }

  /** The other four reports of the sample are not. */
  lemma SampleUnsafe()
    ensures !Safe([1, 2, 7, 8, 9]) && !Safe([9, 7, 6, 2, 1])
    ensures !Safe([1, 3, 2, 4, 5]) && !Safe([8, 6, 4, 4, 1])
  {
    assert Deltas([1, 2, 7, 8, 9])[1] == 5;
    assert Deltas([9, 7, 6, 2, 1])[2] == -4;
    assert Deltas([1, 3, 2, 4, 5])[0] == 2 && Deltas([1, 3, 2, 4, 5])[1] == -1;
    assert Deltas([8, 6, 4, 4, 1])[2] == 0;
  }

  /** With the dampener the sample's fourth and fifth reports pass too,
      by removing their second and their third level. */
  lemma SampleDampened()
    ensures Safe(Remove([1, 3, 2, 4, 5], 1)) && Safe(Remove([8, 6, 4, 4, 1], 2))
  {
    assert Remove([1, 3, 2, 4, 5], 1) == [1, 2, 4, 5];
    assert Deltas([1, 2, 4, 5]) == [1, 2, 1];
    assert Remove([8, 6, 4, 4, 1], 2) == [8, 6, 4, 1];
    assert Deltas([8, 6, 4, 1]) == [-2, -2, -3];
  }
}
