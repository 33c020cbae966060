/** Day 11: stones that change on every blink. A 0 becomes 1; a number
    with an even count of decimal digits splits into its left and right
    halves; any other number is multiplied by 2024. `num_stones` counts
    the stones one stone becomes after a number of blinks by plain
    recursion; `num_stones2` computes the same count through a memo table
    keyed by (value, steps) that the caller owns. */
module Day11 {

  /** b^e. */
  function Power(b: nat, e: nat): (r: nat)
    ensures b > 0 ==> r > 0
  {
    if e == 0 then 1 else b * Power(b, e - 1)
  }

  /** b^(m + n) = b^m · b^n. */
  lemma {:induction false} PowerAdd(b: nat, m: nat, n: nat)
    ensures Power(b, m + n) == Power(b, m) * Power(b, n)
    decreases m
  {
    if m > 0 {
      PowerAdd(b, m - 1, n);
      assert Power(b, m + n) == b * Power(b, m - 1 + n);
    }
  }

  /** `pow`: multiply base into an accumulator exponent times. */
  method Pow(base: nat, exponent: nat) returns (result: nat)
    ensures result == Power(base, exponent)
  {
    result := 1;
    for i := 0 to exponent
      invariant result == Power(base, i)
    {
      result := result * base;
    }
  }

  /** The number of decimal digits of v; 0 has one digit. */
  function Digits(v: nat): (r: nat)
    ensures r >= 1
  {
    if v < 10 then 1 else 1 + Digits(v / 10)
  }

  /** v has n digits exactly when 10^(n-1) <= v < 10^n (for n > 1), or
      v < 10 (for n = 1). */
  lemma {:induction false} DigitsIff(v: nat, n: nat)
    requires n >= 1
    ensures Digits(v) == n <==> v < Power(10, n) && (n == 1 || Power(10, n - 1) <= v)
    decreases n
  {
    if n > 1 {
      DigitsIff(v / 10, n - 1);
      assert Power(10, n) == 10 * Power(10, n - 1);
      assert Power(10, n - 1) == 10 * Power(10, n - 2);
    } else {
      assert Power(10, 1) == 10;
    }
  }

  /** `num_digits`: raise a power of ten until it exceeds the value. */
  method NumDigits(value: nat) returns (digits: nat)
    ensures digits == Digits(value)
  {
    digits := 1;
    var power := 10;
    while power <= value
      invariant digits >= 1 && power == Power(10, digits)
      invariant digits == 1 || Power(10, digits - 1) <= value
      decreases value - power
    {
      power := power * 10;
      digits := digits + 1;
    }
    DigitsIff(value, digits);
  }

  /** A number below 10^n has at most n digits. */
  lemma DigitsAtMost(w: nat, n: nat)
    requires n >= 1 && w < Power(10, n)
    ensures Digits(w) <= n
  {
    DigitsIff(w, Digits(w));
    if Digits(w) > n {
      PowerAdd(10, n, Digits(w) - 1 - n);
    }
  }

  /** A number with 2n digits divided by 10^n has exactly n digits. */
  lemma LeftHalf(v: nat, n: nat)
    requires n >= 1 && Digits(v) == 2 * n
    ensures Digits(v / Power(10, n)) == n
  {
    var h := Power(10, n);
    DigitsIff(v, 2 * n);
    PowerAdd(10, n, n);
    PowerAdd(10, n - 1, n);
    DivBounds(v, h, Power(10, n - 1), Power(10, n));
    DigitsIff(v / h, n);
  }

  /** A number with 2h digits splits into a left half with exactly h
      digits and a right half with at most h digits, and the two halves
      put back together give the number. */
  lemma SplitHalves(v: nat)
    requires Digits(v) % 2 == 0
    ensures var h := Power(10, Digits(v) / 2);
      && v / h * h + v % h == v
      && Digits(v / h) == Digits(v) / 2
      && Digits(v % h) <= Digits(v) / 2
  {
    var n := Digits(v) / 2;
    LeftHalf(v, n);
    DigitsAtMost(v % Power(10, n), n);
  }

  /** lo·h <= v < hi·h puts v / h in [lo, hi). */
  lemma DivBounds(v: nat, h: nat, lo: nat, hi: nat)
    requires h > 0 && lo * h <= v < hi * h
    ensures lo <= v / h < hi
  {
    var q := v / h;
    assert v == q * h + v % h;
    MulLess(q, hi, h);
    MulLess(lo, q + 1, h);
  }

  /** a·h < b·h with h > 0 forces a < b. */
  lemma MulLess(a: int, b: int, h: int)
    requires h > 0
    ensures a * h < b * h ==> a < b
  {
    if a >= b {
      assert a * h - b * h == (a - b) * h;
    }
  }

  /** `num_stones`: the stones one stone with this value becomes after
      the given number of blinks. */
  function Stones(value: nat, steps: nat): (r: nat)
    ensures r >= 1
    decreases steps
  {
    if steps == 0 then 1
    else if value == 0 then Stones(1, steps - 1)
    else
      var digits := Digits(value);
      if digits % 2 == 0 then
        var half := Power(10, digits / 2);
        Stones(value / half, steps - 1) + Stones(value % half, steps - 1)
      else Stones(value * 2024, steps - 1)
  }

  /** A blink at most doubles the stones: after s blinks there are at
      most 2^s. */
  lemma {:induction false} StonesAtMostDouble(value: nat, steps: nat)
    ensures Stones(value, steps) <= Power(2, steps)
    decreases steps
  {
    if steps > 0 {
      if value == 0 {
        StonesAtMostDouble(1, steps - 1);
      } else if Digits(value) % 2 == 0 {
        var half := Power(10, Digits(value) / 2);
        StonesAtMostDouble(value / half, steps - 1);
        StonesAtMostDouble(value % half, steps - 1);
      } else {
        StonesAtMostDouble(value * 2024, steps - 1);
      }
    }
  }

  /** No blink removes a stone: the count never drops. */
  lemma {:induction false} StonesGrow(value: nat, steps: nat)
    ensures Stones(value, steps) <= Stones(value, steps + 1)
    decreases steps
  {
    if steps > 0 {
      if value == 0 {
        StonesGrow(1, steps - 1);
      } else if Digits(value) % 2 == 0 {
        var half := Power(10, Digits(value) / 2);
        StonesGrow(value / half, steps - 1);
        StonesGrow(value % half, steps - 1);
      } else {
        StonesGrow(value * 2024, steps - 1);
      }
    }
  }

  /** `input.iter().map(num_stones).sum()`: the stones a row becomes. */
  function Total(stones: seq<nat>, steps: nat): (r: nat)
    ensures r >= |stones|
  {
    if |stones| == 0 then 0
    else Total(stones[..|stones| - 1], steps) + Stones(stones[|stones| - 1], steps)
  }

  /** A row of n stones becomes at most n · 2^s stones after s blinks. */
  lemma {:induction false} TotalAtMost(stones: seq<nat>, steps: nat)
    ensures Total(stones, steps) <= |stones| * Power(2, steps)
  {
    if |stones| > 0 {
      var n, p := |stones|, Power(2, steps);
      assert Total(stones, steps) == Total(stones[..n - 1], steps) + Stones(stones[n - 1], steps);
      TotalAtMost(stones[..n - 1], steps);
      StonesAtMostDouble(stones[n - 1], steps);
      OneMore(n, p);
    }
  }

  lemma OneMore(n: nat, p: nat)
    requires n > 0
    ensures n * p == (n - 1) * p + p
  {
  }

  /** `part1`: 25 blinks of the whole row, each stone becoming between one
      and 2^25 stones. */
  function Part1(stones: seq<nat>): (r: nat)
    ensures |stones| <= r <= |stones| * Power(2, 25)
  {
    TotalAtMost(stones, 25);
    Total(stones, 25)
  }

  /** A memo table holds only true counts. */
  ghost predicate Consistent(cache: map<(nat, nat), nat>)
  {
    forall k :: k in cache ==> cache[k] == Stones(k.0, k.1)
  }

  /** `num_stones2`: the same count as `num_stones`, looked up in and
      recorded into the caller's memo table. Every entry it adds is a true
      count, no entry it finds changes, and the entry for (value, steps)
      is present afterwards whenever steps > 0. */
  method NumStones2(value: nat, steps: nat, cache0: map<(nat, nat), nat>) returns (result: nat, cache: map<(nat, nat), nat>)
    requires Consistent(cache0)
    ensures result == Stones(value, steps)
    ensures Consistent(cache) && cache0.Keys <= cache.Keys
    ensures steps > 0 ==> (value, steps) in cache
    decreases steps, 1
  {
    cache := cache0;
    if steps == 0 {
      return 1, cache;
    }
    if (value, steps) in cache {
      return cache[(value, steps)], cache;
    }
    if value == 0 {
      result, cache := NumStones2(1, steps - 1, cache);
      cache := cache[(value, steps) := result];
      return;
    }
    var digits := NumDigits(value);
    if digits % 2 == 0 {
      var halfPower := Pow(10, digits / 2);
      result, cache := SplitStones(value / halfPower, value % halfPower, steps, cache);
      cache := cache[(value, steps) := result];
      return;
    }
    result, cache := NumStones2(value * 2024, steps - 1, cache);
    cache := cache[(value, steps) := result];
  }

  /** The even-digits branch of `num_stones2`: both halves, counted in turn
      against the same memo table. */
  method SplitStones(left: nat, right: nat, steps: nat, cache0: map<(nat, nat), nat>) returns (result: nat, cache: map<(nat, nat), nat>)
    requires Consistent(cache0) && steps > 0
    ensures result == Stones(left, steps - 1) + Stones(right, steps - 1)
    ensures Consistent(cache) && cache0.Keys <= cache.Keys
    decreases steps, 0
  {
    var l, r;
    l, cache := NumStones2(left, steps - 1, cache0);
    r, cache := NumStones2(right, steps - 1, cache);
    result := l + r;
  }

  /** `part2`: 75 blinks, one memo table shared by all the stones of the
      row; the answer is the plain recursion's count. */
  method Part2(stones: seq<nat>) returns (answer: nat)
    ensures answer == Total(stones, 75)
  {
    var cache: map<(nat, nat), nat> := map[];
    answer := 0;
    for i := 0 to |stones|
      invariant Consistent(cache) && answer == Total(stones[..i], 75)
    {
      var n;
      n, cache := NumStones2(stones[i], 75, cache);
      assert stones[..i + 1][..i] == stones[..i];
      answer := answer + n;
    }
    assert stones[..|stones|] == stones;
  }
}
