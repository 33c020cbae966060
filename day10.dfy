/** Day 10, "Hoof It": a topographic map of digit heights. A hiking trail
    starts at a `0`, climbs by exactly one at every 4-neighbour step and
    ends at a `9`. Part 1 sums, over the trailheads, how many `9` cells each
    reaches (its score); part 2 sums how many distinct trails each starts
    (its rating). */
module Day10 {
  import opened Common

  /** On the map and not above `9`: a cell the searches may stand on. */
  predicate Climbable(g: Grid, p: Pos)
    requires IsGrid(g)
  {
    InBounds(g, p) && At(g, p) <= '9'
  }

  /** The step from p in direction d climbs by exactly one. */
  predicate Uphill(g: Grid, p: Pos, d: nat)
    requires IsGrid(g)
  {
    && InBounds(g, p) && d < 4
    && InBounds(g, Step(p, d)) && At(g, Step(p, d)) as int == At(g, p) as int + 1
  }

  /** The push for direction d, if it climbs. */
  function Child(g: Grid, p: Pos, d: nat): seq<Pos>
    requires IsGrid(g) && d < 4
  {
    if Uphill(g, p, d) then [Step(p, d)] else []
  }

  /** The pushes for the directions below n, in `DIRS` order. */
  function Children(g: Grid, p: Pos, n: nat): seq<Pos>
    requires IsGrid(g) && n <= 4
  {
    if n == 0 then [] else Children(g, p, n - 1) + Child(g, p, n - 1)
  }

  // What a search from one cell finds: the `9` cells it reaches, the
  // trails it follows, and how many cells it pops on the way.

  /** The `9` cells reachable from p along a trail. */
  ghost function Summits(g: Grid, p: Pos): set<Pos>
    requires IsGrid(g) && Climbable(g, p)
    decreases '9' as int - At(g, p) as int, 1
  {
    if At(g, p) == '9' then {p}
    else Reach(g, p, 0) + Reach(g, p, 1) + Reach(g, p, 2) + Reach(g, p, 3)
  }

  ghost function Reach(g: Grid, p: Pos, d: nat): set<Pos>
    requires IsGrid(g) && Climbable(g, p) && At(g, p) != '9' && d < 4
    decreases '9' as int - At(g, p) as int, 0
  {
    if Uphill(g, p, d) then Summits(g, Step(p, d)) else {}
  }

  /** The number of trails from p to a `9`. */
  ghost function Rating(g: Grid, p: Pos): nat
    requires IsGrid(g) && Climbable(g, p)
    decreases '9' as int - At(g, p) as int, 1
  {
    if At(g, p) == '9' then 1
    else Trails(g, p, 0) + Trails(g, p, 1) + Trails(g, p, 2) + Trails(g, p, 3)
  }

  ghost function Trails(g: Grid, p: Pos, d: nat): nat
    requires IsGrid(g) && Climbable(g, p) && At(g, p) != '9' && d < 4
    decreases '9' as int - At(g, p) as int, 0
  {
    if Uphill(g, p, d) then Rating(g, Step(p, d)) else 0
  }

  /** The number of cells a search from p pops: p and all it pushes. */
  ghost function Size(g: Grid, p: Pos): nat
    requires IsGrid(g) && Climbable(g, p)
    decreases '9' as int - At(g, p) as int, 1
  {
    if At(g, p) == '9' then 1
    else 1 + Subtree(g, p, 0) + Subtree(g, p, 1) + Subtree(g, p, 2) + Subtree(g, p, 3)
  }

  ghost function Subtree(g: Grid, p: Pos, d: nat): nat
    requires IsGrid(g) && Climbable(g, p) && At(g, p) != '9' && d < 4
    decreases '9' as int - At(g, p) as int, 0
  {
    if Uphill(g, p, d) then Size(g, Step(p, d)) else 0
  }

  // The same over a whole stack.

  ghost predicate AllClimbable(g: Grid, qs: seq<Pos>)
    requires IsGrid(g)
  {
    forall i :: 0 <= i < |qs| ==> Climbable(g, qs[i])
  }

  ghost function SummitsOf(g: Grid, qs: seq<Pos>): set<Pos>
    requires IsGrid(g) && AllClimbable(g, qs)
  {
    if qs == [] then {} else SummitsOf(g, qs[..|qs| - 1]) + Summits(g, qs[|qs| - 1])
  }

  ghost function RatingOf(g: Grid, qs: seq<Pos>): nat
    requires IsGrid(g) && AllClimbable(g, qs)
  {
    if qs == [] then 0 else RatingOf(g, qs[..|qs| - 1]) + Rating(g, qs[|qs| - 1])
  }

  ghost function SizeOf(g: Grid, qs: seq<Pos>): nat
    requires IsGrid(g) && AllClimbable(g, qs)
  {
    if qs == [] then 0 else SizeOf(g, qs[..|qs| - 1]) + Size(g, qs[|qs| - 1])
  }

  /** Pushing the climb in direction d adds what that direction leads to. */
  lemma PushChild(g: Grid, xs: seq<Pos>, p: Pos, d: nat)
    requires IsGrid(g) && AllClimbable(g, xs) && Climbable(g, p) && At(g, p) != '9' && d < 4
    ensures AllClimbable(g, xs + Child(g, p, d))
    ensures SummitsOf(g, xs + Child(g, p, d)) == SummitsOf(g, xs) + Reach(g, p, d)
    ensures RatingOf(g, xs + Child(g, p, d)) == RatingOf(g, xs) + Trails(g, p, d)
    ensures SizeOf(g, xs + Child(g, p, d)) == SizeOf(g, xs) + Subtree(g, p, d)
  {
    if Uphill(g, p, d) {
      var ys := xs + [Step(p, d)];
      assert ys[..|ys| - 1] == xs;
    } else {
      assert xs + Child(g, p, d) == xs;
    }
  }

  /** Popping a cell below `9` and pushing its climbs hands its summits,
      trails and remaining pops on to the stack: one pop is spent. */
  lemma PushChildren(g: Grid, xs: seq<Pos>, p: Pos)
    requires IsGrid(g) && AllClimbable(g, xs) && Climbable(g, p) && At(g, p) != '9'
    ensures AllClimbable(g, xs + Children(g, p, 4))
    ensures SummitsOf(g, xs + Children(g, p, 4)) == SummitsOf(g, xs) + Summits(g, p)
    ensures RatingOf(g, xs + Children(g, p, 4)) == RatingOf(g, xs) + Rating(g, p)
    ensures SizeOf(g, xs + Children(g, p, 4)) + 1 == SizeOf(g, xs) + Size(g, p)
  {
    var c0, c1, c2, c3 := Child(g, p, 0), Child(g, p, 1), Child(g, p, 2), Child(g, p, 3);
    assert Children(g, p, 1) == c0;
    assert Children(g, p, 2) == c0 + c1;
    assert Children(g, p, 3) == c0 + c1 + c2;
    assert Children(g, p, 4) == c0 + c1 + c2 + c3;
    assert xs + Children(g, p, 4) == xs + c0 + c1 + c2 + c3;
    PushChild(g, xs, p, 0);
    PushChild(g, xs + c0, p, 1);
    PushChild(g, xs + c0 + c1, p, 2);
    PushChild(g, xs + c0 + c1 + c2, p, 3);
  }

  /** Popping a `9`: it is its own only summit and trail. */
  lemma PopSummit(g: Grid, qs: seq<Pos>)
    requires IsGrid(g) && qs != [] && AllClimbable(g, qs) && At(g, qs[|qs| - 1]) == '9'
    ensures AllClimbable(g, qs[..|qs| - 1])
    ensures SummitsOf(g, qs) == SummitsOf(g, qs[..|qs| - 1]) + {qs[|qs| - 1]}
    ensures RatingOf(g, qs) == RatingOf(g, qs[..|qs| - 1]) + 1
    ensures SizeOf(g, qs) == SizeOf(g, qs[..|qs| - 1]) + 1
  {
  }

  /** Popping a cell below `9`. */
  lemma PopClimb(g: Grid, qs: seq<Pos>)
    requires IsGrid(g) && qs != [] && AllClimbable(g, qs) && At(g, qs[|qs| - 1]) != '9'
    ensures var rest, p := qs[..|qs| - 1], qs[|qs| - 1];
            && Climbable(g, p) && AllClimbable(g, rest + Children(g, p, 4))
            && SummitsOf(g, rest + Children(g, p, 4)) == SummitsOf(g, qs)
            && RatingOf(g, rest + Children(g, p, 4)) == RatingOf(g, qs)
            && SizeOf(g, rest + Children(g, p, 4)) < SizeOf(g, qs)
  {
    PushChildren(g, qs[..|qs| - 1], qs[|qs| - 1]);
  }

  /** The `for dir in DIRS` loop shared by `dfs` and `dfs2`: push every
      in-bounds neighbour exactly one higher. */
  method Climb(g: Grid, p: Pos, stack0: seq<Pos>) returns (stack: seq<Pos>)
    requires IsGrid(g) && InBounds(g, p)
    ensures stack == stack0 + Children(g, p, 4)
  {
    stack := stack0;
    var curHeight := g[p.1][p.0];
    for d := 0 to 4
      invariant stack == stack0 + Children(g, p, d)
    {
      var next := Step(p, d);
      if next.0 < 0 || next.0 >= Width(g) || next.1 < 0 || next.1 >= Height(g) {
        continue;
      }
      var newHeight := g[next.1][next.0];
      if newHeight as int == curHeight as int + 1 {
        stack := stack + [next];
      }
    }
  }

  /** `dfs2`: every trail from s is followed to its end, with no record of
      what was seen, so the count is the rating of s. */
  method Dfs2(g: Grid, s: Pos) returns (answer: nat)
    requires IsGrid(g) && Climbable(g, s)
    ensures answer == Rating(g, s)
  {
    var stack := [s];
    answer := 0;
    while stack != []
      invariant AllClimbable(g, stack)
      invariant answer + RatingOf(g, stack) == Rating(g, s)
      decreases SizeOf(g, stack)
    {
      var p := stack[|stack| - 1];
      if g[p.1][p.0] == '9' {
        PopSummit(g, stack);
        stack := stack[..|stack| - 1];
        answer := answer + 1;
        continue;
      }
      PopClimb(g, stack);
      stack := Climb(g, p, stack[..|stack| - 1]);
    }
  }

  /** The search state of `dfs`: the `9` cells found so far and those the
      stack still leads to make up the summits of s, and `seen` marks
      exactly the ones found. */
  ghost predicate Scouting(g: Grid, s: Pos, stack: seq<Pos>, found: set<Pos>)
    requires IsGrid(g) && Climbable(g, s)
  {
    AllClimbable(g, stack) && found <= Summits(g, s) && found + SummitsOf(g, stack) == Summits(g, s)
  }

  /** Popping a `9`: it is a summit of s, and it moves to the found ones. */
  lemma ScoutSummit(g: Grid, s: Pos, stack: seq<Pos>, found: set<Pos>)
    requires IsGrid(g) && Climbable(g, s) && stack != [] && Scouting(g, s, stack, found)
    requires At(g, stack[|stack| - 1]) == '9'
    ensures var p := stack[|stack| - 1];
            && p in Summits(g, s) && InBounds(g, p)
            && Scouting(g, s, stack[..|stack| - 1], found + {p})
            && SizeOf(g, stack[..|stack| - 1]) < SizeOf(g, stack)
  {
    PopSummit(g, stack);
  }

  /** Popping a cell below `9` and pushing its climbs. */
  lemma ScoutClimb(g: Grid, s: Pos, stack: seq<Pos>, found: set<Pos>)
    requires IsGrid(g) && Climbable(g, s) && stack != [] && Scouting(g, s, stack, found)
    requires At(g, stack[|stack| - 1]) != '9'
    ensures var p := stack[|stack| - 1];
            && InBounds(g, p)
            && Scouting(g, s, stack[..|stack| - 1] + Children(g, p, 4), found)
            && SizeOf(g, stack[..|stack| - 1] + Children(g, p, 4)) < SizeOf(g, stack)
  {
    PopClimb(g, stack);
  }

  /** `seen` as the source allocates it, `height` rows of `width`, but
      indexed `[x][y]`: (x, y) fits only when x < height and y < width. */
  predicate FitsSwapped(g: Grid, q: Pos)
    requires IsGrid(g)
  {
    0 <= q.0 < Height(g) && 0 <= q.1 < Width(g)
  }

  /** `seen` marks exactly the found cells; `swapped` says it is indexed
      `[x][y]` as in the source rather than `[y][x]`. */
  ghost predicate Recorded(g: Grid, seen: array2<bool>, found: set<Pos>, swapped: bool)
    requires IsGrid(g)
    reads seen
  {
    if swapped then
      && seen.Length0 == Height(g) && seen.Length1 == Width(g)
      && (forall q :: q in found ==> FitsSwapped(g, q))
      && (forall q :: FitsSwapped(g, q) ==> (seen[q.0, q.1] <==> q in found))
    else
      && seen.Length0 == Height(g) && seen.Length1 == Width(g)
      && (forall q :: InBounds(g, q) ==> (seen[q.1, q.0] <==> q in found))
  }

  /** A `9` popped by `dfs`: counted the first time, when `seen[y][x]` is set. */
  method Mark(g: Grid, seen: array2<bool>, p: Pos, count0: nat, ghost found0: set<Pos>)
    returns (count: nat, ghost found: set<Pos>)
    requires IsGrid(g) && InBounds(g, p) && Recorded(g, seen, found0, false) && count0 == |found0|
    modifies seen
    ensures Recorded(g, seen, found, false) && found == found0 + {p} && count == |found|
  {
    count, found := count0, found0;
    if !seen[p.1, p.0] {
      seen[p.1, p.0] := true;
      count := count + 1;
      found := found + {p};
    }
  }

  /** The same with the source's `seen[x][y]`. */
  method MarkSwapped(g: Grid, seen: array2<bool>, p: Pos, count0: nat, ghost found0: set<Pos>)
    returns (count: nat, ghost found: set<Pos>)
    requires IsGrid(g) && FitsSwapped(g, p) && Recorded(g, seen, found0, true) && count0 == |found0|
    modifies seen
    ensures Recorded(g, seen, found, true) && found == found0 + {p} && count == |found|
  {
    count, found := count0, found0;
    if !seen[p.0, p.1] {
      seen[p.0, p.1] := true;
      count := count + 1;
      found := found + {p};
    }
  }

  /** `dfs` with its `seen` table indexed `[y][x]` like the map: the `9`
      cells reached are counted once each, so the count is the score of s. */
  method Dfs(g: Grid, s: Pos) returns (answer: nat)
    requires IsGrid(g) && Climbable(g, s)
    ensures answer == |Summits(g, s)|
  {
    var stack := [s];
    var seen := new bool[Height(g), Width(g)]((y, x) => false);
    ghost var found: set<Pos> := {};
    answer := 0;
    while stack != []
      invariant Scouting(g, s, stack, found) && answer == |found| && Recorded(g, seen, found, false)
      decreases SizeOf(g, stack)
    {
      var p := stack[|stack| - 1];
      if g[p.1][p.0] == '9' {
        ScoutSummit(g, s, stack, found);
        answer, found := Mark(g, seen, p, answer, found);
        stack := stack[..|stack| - 1];
        continue;
      }
      ScoutClimb(g, s, stack, found);
      stack := Climb(g, p, stack[..|stack| - 1]);
    }
  }

  /** `dfs` as written: the `seen[x][y]` lookup of a `9` outside the
      swapped bounds panics (None). On a square map it never does. */
  method DfsAsWritten(g: Grid, s: Pos) returns (answer: Option<nat>)
    requires IsGrid(g) && Climbable(g, s)
    ensures answer == if forall q :: q in Summits(g, s) ==> FitsSwapped(g, q) then Some(|Summits(g, s)|) else None
  {
    var stack := [s];
    var seen := new bool[Height(g), Width(g)]((y, x) => false);
    ghost var found: set<Pos> := {};
    var count := 0;
    while stack != []
      invariant Scouting(g, s, stack, found) && count == |found| && Recorded(g, seen, found, true)
      decreases SizeOf(g, stack)
    {
      var p := stack[|stack| - 1];
      if g[p.1][p.0] == '9' {
        ScoutSummit(g, s, stack, found);
        if !(p.0 < seen.Length0 && p.1 < seen.Length1) {
          assert !FitsSwapped(g, p);
          return None;
        }
        count, found := MarkSwapped(g, seen, p, count, found);
        stack := stack[..|stack| - 1];
        continue;
      }
      ScoutClimb(g, s, stack, found);
      stack := Climb(g, p, stack[..|stack| - 1]);
    }
    assert found == Summits(g, s);
    answer := Some(count);
  }

  /** Every summit is a `9` cell of the map. */
  lemma {:induction false} SummitsAreNines(g: Grid, p: Pos)
    requires IsGrid(g) && Climbable(g, p)
    ensures forall q :: q in Summits(g, p) ==> InBounds(g, q) && At(g, q) == '9'
    decreases '9' as int - At(g, p) as int
  {
    if At(g, p) != '9' {
      forall d | 0 <= d < 4 && Uphill(g, p, d)
        ensures forall q :: q in Reach(g, p, d) ==> InBounds(g, q) && At(g, q) == '9'
      {
        SummitsAreNines(g, Step(p, d));
      }
    }
  }

  /** On a square map `dfs` as written never indexes `seen` out of range. */
  lemma SquareFits(g: Grid, s: Pos)
    requires IsGrid(g) && Climbable(g, s) && Width(g) == Height(g)
    ensures forall q :: q in Summits(g, s) ==> FitsSwapped(g, q)
  {
    SummitsAreNines(g, s);
  }

  // A map that is not square.

  /** One row climbing from 0 to 9: ten columns, one row. */
  const Ramp: Grid := ["0123456789"]

  lemma RampHeight(k: nat)
    requires k < 10
    ensures IsGrid(Ramp) && Width(Ramp) == 10 && Height(Ramp) == 1
    ensures At(Ramp, (k, 0)) as int == '0' as int + k
  {
    assert Ramp[0] == "0123456789";
  }

  /** From every cell of the ramp the one summit is its end, (9, 0). */
  lemma {:induction false} RampSummits(k: nat)
    requires k < 10
    ensures IsGrid(Ramp) && Climbable(Ramp, (k, 0)) && Summits(Ramp, (k, 0)) == {(9, 0)}
    decreases 10 - k
  {
    RampHeight(k);
    if k < 9 {
      RampSummits(k + 1);
      RampHeight(k + 1);
      assert Uphill(Ramp, (k, 0), 0);
      assert !Uphill(Ramp, (k, 0), 1);
      if k > 0 {
        RampHeight(k - 1);
      }
      assert !Uphill(Ramp, (k, 0), 2);
      assert !Uphill(Ramp, (k, 0), 3);
    }
  }

  /** `dfs` as written panics on the ramp: its summit (9, 0) needs
      `seen[9]`, but `seen` has a single row. */
  lemma RampPanics()
    ensures IsGrid(Ramp) && Climbable(Ramp, (0, 0))
    ensures (9, 0) in Summits(Ramp, (0, 0)) && !FitsSwapped(Ramp, (9, 0))
  {
    RampSummits(0);
  }

  /** The intended score of the ramp's trailhead is 1. */
  lemma RampScore()
    ensures IsGrid(Ramp) && Climbable(Ramp, (0, 0)) && |Summits(Ramp, (0, 0))| == 1
  {
    RampSummits(0);
  }

  // The drivers.

  datatype Kind = ByScore | ByRating

  /** What a trailhead contributes to each part. */
  ghost function Value(g: Grid, k: Kind, p: Pos): nat
    requires IsGrid(g) && Climbable(g, p)
  {
    match k
    case ByScore => |Summits(g, p)|
    case ByRating => Rating(g, p)
  }

  /** The sum of the values of the trailheads (`0` cells) a column scan
      standing at (x, y) has passed. */
  ghost function Total(g: Grid, k: Kind, x: nat, y: nat): nat
    requires IsGrid(g) && x <= Width(g) && y <= Height(g) && (x == Width(g) ==> y == 0)
    decreases x, y
  {
    if y == 0 then (if x == 0 then 0 else Total(g, k, x - 1, Height(g)))
    else Total(g, k, x, y - 1) + if At(g, (x, y - 1)) == '0' then Value(g, k, (x, y - 1)) else 0
  }

  /** Part 1: the sum of the trailhead scores. */
  method Part1(g: Grid) returns (answer: nat)
    requires IsGrid(g)
    ensures answer == Total(g, ByScore, Width(g), 0)
  {
    answer := 0;
    for x := 0 to Width(g)
      invariant answer == Total(g, ByScore, x, 0)
    {
      for y := 0 to Height(g)
        invariant answer == Total(g, ByScore, x, y)
      {
        if g[y][x] == '0' {
          var numTrails := Dfs(g, (x, y));
          answer := answer + numTrails;
        }
      }
    }
  }

  /** Part 2: the sum of the trailhead ratings. */
  method Part2(g: Grid) returns (answer: nat)
    requires IsGrid(g)
    ensures answer == Total(g, ByRating, Width(g), 0)
  {
    answer := 0;
    for x := 0 to Width(g)
      invariant answer == Total(g, ByRating, x, 0)
    {
      for y := 0 to Height(g)
        invariant answer == Total(g, ByRating, x, y)
      {
        if g[y][x] == '0' {
          var numTrails := Dfs2(g, (x, y));
          answer := answer + numTrails;
        }
      }
    }
  }
}
