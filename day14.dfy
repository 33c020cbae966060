/** Day 14: robots moving on a wrap-around floor of `width` × `height`
    tiles. Each robot is at (x, y) moving (vx, vy) tiles a second; after 100
    seconds its position is computed in closed form, wrapped onto the floor,
    and counted in one of four quadrants; robots on the middle column or
    the middle row count in none. The answer is the product of the four
    counts. */
module Day14 {
  import opened Common

  datatype Robot = Robot(x: int, y: int, vx: int, vy: int)

  /** Rust's `/` on `i32`: division rounded toward zero. */
  function Quot(a: int, b: int): int
    requires b > 0
  {
    if a >= 0 then a / b else -((-a) / b)
  }

  /** Rust's `%` on `i32`: the remainder of division rounded toward zero,
      which takes the sign of the dividend. */
  function Rem(a: int, b: int): (r: int)
    requires b > 0
    ensures -b < r < b
    ensures a >= 0 ==> r >= 0
    ensures a < 0 ==> r <= 0
    ensures a == Quot(a, b) * b + r
  {
    if a >= 0 then a % b else -((-a) % b)
  }

  /** One coordinate after 100 seconds: `((p + v·100) % n + n) % n`. It
      lands on the floor and agrees with the mathematical remainder, so a
      negative coordinate wraps onto the far side. */
  function Wrap(p: int, v: int, n: int): (r: int)
    requires n > 0
    ensures 0 <= r < n
    ensures r == (p + v * 100) % n
  {
    var r := Rem(Rem(p + v * 100, n) + n, n);
    WrapAgrees(p + v * 100, n);
    r
  }

  /** Adding n to a remainder in (-n, n) and taking Rust's `%` again gives
      the remainder in [0, n). */
  lemma WrapAgrees(a: int, n: int)
    requires n > 0
    ensures Rem(Rem(a, n) + n, n) == a % n
  {
    var m := Rem(a, n);
    var s := Rem(m + n, n);
    var k := Quot(a, n) + Quot(m + n, n) - 1;
    assert a == k * n + s;
    ModUnique(a, k, s, n);
  }

  /** a = k·n + s with s in [0, n) makes k and s the quotient and the
      remainder of a by n. */
  lemma ModUnique(a: int, k: int, s: int, n: int)
    requires n > 0 && 0 <= s < n && a == k * n + s
    ensures s == a % n && k == a / n
  {
    assert a == (a / n) * n + a % n;
    assert (a / n - k) * n == s - a % n;
    MulBounded(a / n - k, n);
  }

  /** The only multiple of n strictly between -n and n is 0. */
  lemma MulBounded(x: int, n: int)
    requires n > 0
    ensures -n < x * n < n ==> x == 0
  {
    MulLe(1, x, n);
    MulLe(x, -1, n);
  }

  /** a <= b scales to a·c <= b·c for c >= 0. */
  lemma MulLe(a: int, b: int, c: int)
    requires c >= 0
    ensures a <= b ==> a * c <= b * c
  {
    assert b * c - a * c == (b - a) * c;
  }

  /** The robot's tile after 100 seconds. */
  function EndPos(r: Robot, width: int, height: int): (e: Pos)
    requires width > 0 && height > 0
    ensures 0 <= e.0 < width && 0 <= e.1 < height
  {
    (Wrap(r.x, r.vx, width), Wrap(r.y, r.vy, height))
  }

  /** The quadrant a tile counts in: 0 top-left, 1 top-right, 2
      bottom-right, 3 bottom-left, none on the middle column or row. */
  function Quadrant(p: Pos, width: int, height: int): (q: Option<nat>)
    ensures q.Some? ==> q.value < 4
    ensures q.None? <==> p.0 == width / 2 || p.1 == height / 2
    ensures q == Some(0) <==> p.0 < width / 2 && p.1 < height / 2
    ensures q == Some(1) <==> p.0 > width / 2 && p.1 < height / 2
    ensures q == Some(2) <==> p.0 > width / 2 && p.1 > height / 2
    ensures q == Some(3) <==> p.0 < width / 2 && p.1 > height / 2
  {
    if p.0 == width / 2 || p.1 == height / 2 then None
    else if p.1 < height / 2 then (if p.0 < width / 2 then Some(0) else Some(1))
    else (if p.0 > width / 2 then Some(2) else Some(3))
  }

  /** The robots that end in quadrant k. */
  function Count(robots: seq<Robot>, width: int, height: int, k: nat): nat
    requires width > 0 && height > 0
  {
    if |robots| == 0 then 0
    else
      Count(robots[..|robots| - 1], width, height, k)
      + (if Quadrant(EndPos(robots[|robots| - 1], width, height), width, height) == Some(k) then 1 else 0)
  }

  /** The robots that end on the middle column or the middle row. */
  function OnMiddle(robots: seq<Robot>, width: int, height: int): nat
    requires width > 0 && height > 0
  {
    if |robots| == 0 then 0
    else
      OnMiddle(robots[..|robots| - 1], width, height)
      + (if Quadrant(EndPos(robots[|robots| - 1], width, height), width, height).None? then 1 else 0)
  }

  /** Every robot is counted exactly once: in one quadrant, or on the
      middle lines. */
  lemma {:induction false} CountsPartition(robots: seq<Robot>, width: int, height: int)
    requires width > 0 && height > 0
    ensures Count(robots, width, height, 0) + Count(robots, width, height, 1)
          + Count(robots, width, height, 2) + Count(robots, width, height, 3)
          + OnMiddle(robots, width, height) == |robots|
  {
    if |robots| > 0 {
      CountsPartition(robots[..|robots| - 1], width, height);
    }
  }

  /** The product, behind a call so that the solver does not unfold
      the multiplication of the four counts inside `Part1`. */
  function Times(a: nat, b: nat): nat
  {
    a * b
  }

  /** The source's nested tests on one end tile: the slot of its quadrant
      goes up by one, and no other slot changes. */
  method Tally(quadrants: array<nat>, endPos: Pos, width: int, height: int)
    requires quadrants.Length == 4
    modifies quadrants
    ensures forall k :: 0 <= k < 4 ==>
      quadrants[k] == old(quadrants[k]) + if Quadrant(endPos, width, height) == Some(k) then 1 else 0
  {
    if endPos.0 < width / 2 {
      if endPos.1 < height / 2 {
        quadrants[0] := quadrants[0] + 1;
      }
      if endPos.1 > height / 2 {
        quadrants[3] := quadrants[3] + 1;
      }
    }
    if endPos.0 > width / 2 {
      if endPos.1 < height / 2 {
        quadrants[1] := quadrants[1] + 1;
      }
      if endPos.1 > height / 2 {
        quadrants[2] := quadrants[2] + 1;
      }
    }
  }

  /** `part1`: count each robot's end tile into a four-slot array, then
      multiply the slots. */
  method Part1(robots: seq<Robot>, width: int, height: int) returns (answer: nat)
    requires width > 0 && height > 0
    ensures answer == (Count(robots, width, height, 0) * Count(robots, width, height, 1))
                    * (Count(robots, width, height, 2) * Count(robots, width, height, 3))
  {
    var quadrants := new nat[4](_ => 0);
    for i := 0 to |robots|
      invariant forall k :: 0 <= k < 4 ==> quadrants[k] == Count(robots[..i], width, height, k)
    {
      var endPos := EndPos(robots[i], width, height);
      assert robots[..i + 1][..i] == robots[..i];
      Tally(quadrants, endPos, width, height);
    }
    assert robots[..|robots|] == robots;
    answer := Times(Times(quadrants[0], quadrants[1]), Times(quadrants[2], quadrants[3]));
  }
}
