/** Day 15, "Warehouse Woes": a robot walks through a warehouse map and
    pushes chains of boxes ahead of it; part 2 first widens the map so
    every box spans two cells and vertical pushes can fan out. */
module Day15 {
  import opened Common

  // Geometry along one of the four directions.

  /** How far p lies along direction d. */
  function Along(p: Pos, d: nat): int
    requires d < 4
  {
    if d == 0 then p.0 else if d == 1 then p.1 else if d == 2 then -p.0 else -p.1
  }

  /** The coordinate that a step in direction d leaves alone. */
  function Across(p: Pos, d: nat): int
    requires d < 4
  {
    if d == 0 || d == 2 then p.1 else p.0
  }

  lemma StepAlong(p: Pos, d: nat)
    requires d < 4
    ensures Along(Step(p, d), d) == Along(p, d) + 1 && Across(Step(p, d), d) == Across(p, d)
  {
  }

  /** How many steps in direction d stay on the map from p, counting p. */
  function Reach(g: Grid, p: Pos, d: nat): int
    requires IsGrid(g) && d < 4
  {
    (if d == 0 then Width(g) else if d == 1 then Height(g) else 1) - Along(p, d)
  }

  lemma ReachStep(g: Grid, p: Pos, d: nat)
    requires IsGrid(g) && d < 4
    ensures InBounds(g, p) ==> Reach(g, p, d) > 0
    ensures Reach(g, Step(p, d), d) == Reach(g, p, d) - 1
  {
    StepAlong(p, d);
  }

  /** k steps from p in direction d. */
  function Ray(p: Pos, d: nat, k: nat): Pos
    requires d < 4
  {
    if k == 0 then p else Step(Ray(p, d, k - 1), d)
  }

  lemma {:induction false} RayCoords(p: Pos, d: nat, k: nat)
    requires d < 4
    ensures Along(Ray(p, d, k), d) == Along(p, d) + k && Across(Ray(p, d, k), d) == Across(p, d)
  {
    if k > 0 {
      RayCoords(p, d, k - 1);
      StepAlong(Ray(p, d, k - 1), d);
    }
  }

  lemma {:induction false} RayShift(p: Pos, d: nat, k: nat)
    requires d < 4
    ensures Ray(Step(p, d), d, k) == Ray(p, d, k + 1)
  {
    if k > 0 {
      RayShift(p, d, k - 1);
    }
  }

  /** q is not among the m + 1 cells p, p + d, .., p + m·d. */
  predicate OffRay(q: Pos, p: Pos, d: nat, m: nat)
    requires d < 4
  {
    Across(q, d) != Across(p, d) || Along(q, d) < Along(p, d) || Along(q, d) > Along(p, d) + m
  }

  // The map as a value.

  /** Every symbol on the map, with its multiplicity. */
  function Symbols(g: Grid): multiset<char>
  {
    if g == [] then multiset{} else multiset(g[0]) + Symbols(g[1..])
  }

  /** One write trades the overwritten symbol for the written one. */
  lemma {:induction false} WriteSymbols(g: Grid, y: nat, x: nat, c: char)
    requires y < |g| && x < |g[y]|
    ensures Symbols(g[y := g[y][x := c]]) + multiset{g[y][x]} == Symbols(g) + multiset{c}
  {
    var g' := g[y := g[y][x := c]];
    if y == 0 {
      assert g'[1..] == g[1..];
      WriteRowSymbols(g[0], x, c);
    } else {
      assert g'[1..] == g[1..][y - 1 := g[y][x := c]] && g'[0] == g[0];
      WriteSymbols(g[1..], y - 1, x, c);
      calc {
        Symbols(g') + multiset{g[y][x]};
        multiset(g[0]) + Symbols(g'[1..]) + multiset{g[y][x]};
        multiset(g[0]) + (Symbols(g[1..]) + multiset{c});
        Symbols(g) + multiset{c};
      }
    }
  }

  /** One write to a row trades the overwritten symbol for the written one. */
  lemma WriteRowSymbols(row: seq<char>, x: nat, c: char)
    requires x < |row|
    ensures multiset(row[x := c]) + multiset{row[x]} == multiset(row) + multiset{c}
  {
    assert row == row[..x] + [row[x]] + row[x + 1..];
    assert row[x := c] == row[..x] + [c] + row[x + 1..];
  }

  lemma SetSymbols(g: Grid, p: Pos, c: char)
    requires IsGrid(g) && InBounds(g, p)
    ensures Symbols(Set(g, p, c)) + multiset{At(g, p)} == Symbols(g) + multiset{c}
  {
    WriteSymbols(g, p.1, p.0, c);
  }

  // Part 1: `try_move`.

  /** How many boxes stand in a row ahead of p in direction d. */
  function Run(g: Grid, p: Pos, d: nat, boxes: set<char>): nat
    requires IsGrid(g) && InBounds(g, p) && d < 4
    decreases Reach(g, p, d)
  {
    ReachStep(g, p, d);
    var next := Step(p, d);
    if InBounds(g, next) && At(g, next) in boxes then 1 + Run(g, next, d, boxes) else 0
  }

  /** `try_move` as a value: the map after the thing at `pos` moves one
      step in direction d, pushing the boxes ahead of it, or None when
      the push runs into a wall or off the map, and nothing is written.
      The mover takes the target cell and leaves `.` behind. */
  function Shove(g: Grid, pos: Pos, d: nat, boxes: set<char>): (r: Option<Grid>)
    requires IsGrid(g) && InBounds(g, pos) && d < 4
    ensures r.Some? ==> IsGrid(r.value) && |r.value| == |g| && Width(r.value) == Width(g)
    decreases Reach(g, pos, d)
  {
    ReachStep(g, pos, d);
    var next := Step(pos, d);
    if !InBounds(g, next) || At(g, next) == '#' then None
    else if At(g, next) in boxes then
      match Shove(g, next, d, boxes)
      case None => None
      case Some(g1) => Some(Set(Set(g1, next, At(g, pos)), pos, '.'))
    else Some(Set(Set(g, next, At(g, pos)), pos, '.'))
  }

  /** g' is g with the mover at pos and the n boxes ahead of it shifted
      one step in direction d, `.` left at pos, and every other cell as it was. */
  ghost predicate Shifted(g: Grid, g': Grid, pos: Pos, d: nat, n: nat)
    requires IsGrid(g) && InBounds(g, pos) && d < 4
  {
    && IsGrid(g') && |g'| == |g| && Width(g') == Width(g)
    && (forall k :: 0 <= k <= n + 1 ==> InBounds(g, Ray(pos, d, k)))
    && At(g', pos) == '.'
    && (forall k :: 1 <= k <= n + 1 ==> At(g', Ray(pos, d, k)) == At(g, Ray(pos, d, k - 1)))
    && (forall q :: InBounds(g, q) && OffRay(q, pos, d, n + 1) ==> At(g', q) == At(g, q))
  }

  /** A push succeeds exactly when the cell after the run of boxes is on
      the map and not a wall, and then it shifts the mover and the boxes
      one step and changes nothing else. */
  lemma {:induction false} ShoveShifts(g: Grid, pos: Pos, d: nat, boxes: set<char>)
    requires IsGrid(g) && InBounds(g, pos) && d < 4 && '#' !in boxes
    ensures var free := Ray(pos, d, Run(g, pos, d, boxes) + 1);
      Shove(g, pos, d, boxes).Some? <==> InBounds(g, free) && At(g, free) != '#'
    ensures Shove(g, pos, d, boxes).Some? ==> Shifted(g, Shove(g, pos, d, boxes).value, pos, d, Run(g, pos, d, boxes))
    decreases Reach(g, pos, d)
  {
    ReachStep(g, pos, d);
    var next := Step(pos, d);
    var n := Run(g, pos, d, boxes);
    assert Ray(pos, d, 1) == next;
    if !InBounds(g, next) || At(g, next) == '#' {
      assert n == 0;
    } else if At(g, next) in boxes {
      ShoveShifts(g, next, d, boxes);
      RayShift(pos, d, n);
      if Shove(g, next, d, boxes).Some? {
        ShiftOne(g, Shove(g, next, d, boxes).value, pos, d, n);
      }
    } else {
      assert n == 0;
      ShiftFree(g, pos, d);
    }
  }

  /** The step of `ShoveShifts` where the boxes ahead have already moved. */
  lemma ShiftOne(g: Grid, g1: Grid, pos: Pos, d: nat, n: nat)
    requires IsGrid(g) && InBounds(g, pos) && d < 4 && n > 0 && InBounds(g, Step(pos, d))
    requires Shifted(g, g1, Step(pos, d), d, n - 1)
    ensures Shifted(g, Set(Set(g1, Step(pos, d), At(g, pos)), pos, '.'), pos, d, n)
  {
    var next := Step(pos, d);
    assert Ray(next, d, 0) == next;
    var g' := Set(Set(g1, next, At(g, pos)), pos, '.');
    StepAlong(pos, d);
    forall k | 0 <= k <= n + 1 ensures InBounds(g, Ray(pos, d, k)) {
      if k > 0 {
        RayShift(pos, d, k - 1);
      }
    }
    forall k | 1 <= k <= n + 1 ensures At(g', Ray(pos, d, k)) == At(g, Ray(pos, d, k - 1)) {
      ShiftOneAt(g, g1, pos, d, n, k);
    }
    forall q | InBounds(g, q) && OffRay(q, pos, d, n + 1) ensures At(g', q) == At(g, q) {
      assert OffRay(q, next, d, n) && q != pos && q != next;
    }
  }

  lemma ShiftOneAt(g: Grid, g1: Grid, pos: Pos, d: nat, n: nat, k: nat)
    requires IsGrid(g) && InBounds(g, pos) && d < 4 && n > 0 && 1 <= k <= n + 1 && InBounds(g, Step(pos, d))
    requires Shifted(g, g1, Step(pos, d), d, n - 1)
    ensures InBounds(g, Ray(pos, d, k)) && InBounds(g, Ray(pos, d, k - 1)) && InBounds(g, Step(pos, d))
    ensures At(Set(Set(g1, Step(pos, d), At(g, pos)), pos, '.'), Ray(pos, d, k)) == At(g, Ray(pos, d, k - 1))
  {
    var next := Step(pos, d);
    assert Ray(next, d, 0) == next;
    RayShift(pos, d, k - 1);
    RayCoords(pos, d, k);
    StepAlong(pos, d);
    if k > 1 {
      RayShift(pos, d, k - 2);
      RayCoords(next, d, k - 1);
      assert At(g1, Ray(next, d, k - 1)) == At(g, Ray(next, d, k - 2));
    }
  }

  /** The step of `ShoveShifts` onto a free cell. */
  lemma ShiftFree(g: Grid, pos: Pos, d: nat)
    requires IsGrid(g) && InBounds(g, pos) && d < 4 && InBounds(g, Step(pos, d))
    ensures Shifted(g, Set(Set(g, Step(pos, d), At(g, pos)), pos, '.'), pos, d, 0)
  {
    StepAlong(pos, d);
    assert Ray(pos, d, 1) == Step(pos, d);
  }

  /** A push trades the free cell's symbol for a `.`: the symbols on the
      map are otherwise the same, so no box appears or disappears. */
  lemma {:induction false} ShoveSymbols(g: Grid, pos: Pos, d: nat, boxes: set<char>)
    requires IsGrid(g) && InBounds(g, pos) && d < 4 && '#' !in boxes
    requires Shove(g, pos, d, boxes).Some?
    ensures var free := Ray(pos, d, Run(g, pos, d, boxes) + 1);
      InBounds(g, free) && Symbols(Shove(g, pos, d, boxes).value) + multiset{At(g, free)} == Symbols(g) + multiset{'.'}
    decreases Reach(g, pos, d)
  {
    ReachStep(g, pos, d);
    ShoveShifts(g, pos, d, boxes);
    var next := Step(pos, d);
    var n := Run(g, pos, d, boxes);
    assert Ray(pos, d, 1) == next;
    if At(g, next) in boxes {
      ShoveSymbols(g, next, d, boxes);
      RayShift(pos, d, n);
      var g1 := Shove(g, next, d, boxes).value;
      ShoveShifts(g, next, d, boxes);
      MoveIntoVacated(g, g1, pos, d, n - 1);
    } else {
      MoveSymbols(g, pos, next, At(g, pos));
    }
  }

  /** Moving the mover into the cell its inner push left as `.` keeps
      every symbol count. */
  lemma MoveIntoVacated(g: Grid, g1: Grid, pos: Pos, d: nat, m: nat)
    requires IsGrid(g) && InBounds(g, pos) && d < 4 && InBounds(g, Step(pos, d))
    requires Shifted(g, g1, Step(pos, d), d, m)
    ensures InBounds(g1, Step(pos, d)) && InBounds(g1, pos)
    ensures Symbols(Set(Set(g1, Step(pos, d), At(g, pos)), pos, '.')) == Symbols(g1)
  {
    var next := Step(pos, d);
    assert Ray(next, d, 0) == next;
    StepAlong(pos, d);
    assert OffRay(pos, next, d, m + 1);
    assert At(g1, next) == '.' && At(g1, pos) == At(g, pos);
    MoveSymbols(g1, pos, next, At(g, pos));
    Cancel(Symbols(Set(Set(g1, next, At(g, pos)), pos, '.')), Symbols(g1), '.');
  }

  /** Writing c at `next` and `.` at `pos`, where `pos` held c. */
  lemma MoveSymbols(g: Grid, pos: Pos, next: Pos, c: char)
    requires IsGrid(g) && InBounds(g, pos) && InBounds(g, next) && pos != next && At(g, pos) == c
    ensures Symbols(Set(Set(g, next, c), pos, '.')) + multiset{At(g, next)} == Symbols(g) + multiset{'.'}
  {
    var g2 := Set(g, next, c);
    var g' := Set(g2, pos, '.');
    SetSymbols(g, next, c);
    SetSymbols(g2, pos, '.');
    assert At(g2, pos) == c;
    assert Symbols(g') + multiset{c} == Symbols(g2) + multiset{'.'};
    assert Symbols(g2) + multiset{At(g, next)} == Symbols(g) + multiset{c};
    calc {
      Symbols(g') + multiset{At(g, next)} + multiset{c};
      Symbols(g') + multiset{c} + multiset{At(g, next)};
      Symbols(g2) + multiset{'.'} + multiset{At(g, next)};
      Symbols(g2) + multiset{At(g, next)} + multiset{'.'};
      Symbols(g) + multiset{c} + multiset{'.'};
      Symbols(g) + multiset{'.'} + multiset{c};
    }
    Cancel(Symbols(g') + multiset{At(g, next)}, Symbols(g) + multiset{'.'}, c);
  }

  lemma Cancel(a: multiset<char>, b: multiset<char>, c: char)
    requires a + multiset{c} == b + multiset{c}
    ensures a == b
  {
    assert forall x :: (a + multiset{c})[x] == a[x] + (if x == c then 1 else 0);
    assert forall x :: (b + multiset{c})[x] == b[x] + (if x == c then 1 else 0);
    assert forall x :: a[x] == b[x];
  }

  /** The box count never changes: the free cell at the end of a push
      holds no box. */
  lemma ShoveKeepsBoxes(g: Grid, pos: Pos, d: nat, boxes: set<char>, b: char)
    requires IsGrid(g) && InBounds(g, pos) && d < 4 && '#' !in boxes && b in boxes && b != '.'
    requires Shove(g, pos, d, boxes).Some?
    ensures Symbols(Shove(g, pos, d, boxes).value)[b] == Symbols(g)[b]
  {
    ShoveSymbols(g, pos, d, boxes);
    FreeIsNoBox(g, pos, d, boxes);
    var free := Ray(pos, d, Run(g, pos, d, boxes) + 1);
    assert At(g, free) != b;
    TradeCount(Symbols(Shove(g, pos, d, boxes).value), Symbols(g), At(g, free), b);
  }

  /** A trade of x for `.` leaves the count of any other symbol b alone. */
  lemma TradeCount(A: multiset<char>, B: multiset<char>, x: char, b: char)
    requires A + multiset{x} == B + multiset{'.'} && x != b && b != '.'
    ensures A[b] == B[b]
  {
    assert (A + multiset{x})[b] == A[b];
    assert (B + multiset{'.'})[b] == B[b];
  }

  /** The cell after the run of boxes holds no box. */
  lemma {:induction false} FreeIsNoBox(g: Grid, pos: Pos, d: nat, boxes: set<char>)
    requires IsGrid(g) && InBounds(g, pos) && d < 4
    ensures var free := Ray(pos, d, Run(g, pos, d, boxes) + 1); InBounds(g, free) ==> At(g, free) !in boxes
    decreases Reach(g, pos, d)
  {
    ReachStep(g, pos, d);
    var next := Step(pos, d);
    assert Ray(pos, d, 1) == next;
    if InBounds(g, next) && At(g, next) in boxes {
      FreeIsNoBox(g, next, d, boxes);
      RayShift(pos, d, Run(g, next, d, boxes) + 1);
    }
  }

  /** The robot's walk: each move pushes if it can; the tracked position
      advances only when the push succeeds. */
  function Replay(g: Grid, pos: Pos, moves: seq<nat>): (r: (Grid, Pos))
    requires IsGrid(g) && InBounds(g, pos) && forall i :: 0 <= i < |moves| ==> moves[i] < 4
    ensures IsGrid(r.0) && |r.0| == |g| && Width(r.0) == Width(g) && InBounds(r.0, r.1)
    decreases |moves|
  {
    if moves == [] then (g, pos)
    else match Shove(g, pos, moves[0], {'O'})
      case None => Replay(g, pos, moves[1..])
      case Some(g') =>
        ShoveShifts(g, pos, moves[0], {'O'});
        assert Ray(pos, moves[0], 1) == Step(pos, moves[0]);
        Replay(g', Step(pos, moves[0]), moves[1..])
  }

  /** The tracked position always holds the robot, and the number of boxes
      never changes. */
  lemma {:induction false} ReplayKeeps(g: Grid, pos: Pos, moves: seq<nat>)
    requires IsGrid(g) && InBounds(g, pos) && forall i :: 0 <= i < |moves| ==> moves[i] < 4
    requires At(g, pos) == '@'
    ensures At(Replay(g, pos, moves).0, Replay(g, pos, moves).1) == '@'
    ensures Symbols(Replay(g, pos, moves).0)['O'] == Symbols(g)['O']
    decreases |moves|
  {
    if moves != [] {
      var d := moves[0];
      ShoveShifts(g, pos, d, {'O'});
      if Shove(g, pos, d, {'O'}).Some? {
        var g' := Shove(g, pos, d, {'O'}).value;
        ShoveKeepsBoxes(g, pos, d, {'O'}, 'O');
        assert Ray(pos, d, 1) == Step(pos, d) && Ray(pos, d, 0) == pos;
        ReplayKeeps(g', Step(pos, d), moves[1..]);
      } else {
        ReplayKeeps(g, pos, moves[1..]);
      }
    }
  }

  /** The score of one row: 100·y + x for each cell holding c. */
  function RowScore(row: seq<char>, y: nat, c: char): nat
  {
    if row == [] then 0
    else RowScore(row[..|row| - 1], y, c) + (if row[|row| - 1] == c then 100 * y + |row| - 1 else 0)
  }

  /** The sum of the GPS coordinates 100·y + x of the cells holding c. */
  function Score(g: Grid, c: char): nat
  {
    if g == [] then 0 else Score(g[..|g| - 1], c) + RowScore(g[|g| - 1], |g| - 1, c)
  }

  /** The moves in the text: `>`, `v`, `<`, `^` become the `DIRS` indices
      0 to 3, anything else is skipped. */
  function Moves(text: seq<char>): (moves: seq<nat>)
    ensures forall i :: 0 <= i < |moves| ==> moves[i] < 4
  {
    if text == [] then []
    else
      var c := text[|text| - 1];
      Moves(text[..|text| - 1])
      + (if c == '>' then [0] else if c == 'v' then [1] else if c == '<' then [2] else if c == '^' then [3] else [])
  }

  /** The score loop of both parts. */
  method GpsSum(g: Grid, c: char) returns (result: nat)
    requires IsGrid(g)
    ensures result == Score(g, c)
  {
    result := 0;
    for y := 0 to Height(g)
      invariant result == Score(g[..y], c)
    {
      for x := 0 to Width(g)
        invariant result == Score(g[..y], c) + RowScore(g[y][..x], y, c)
      {
        assert g[y][..x + 1][..x] == g[y][..x];
        if g[y][x] == c {
          result := result + y * 100 + x;
        }
      }
      assert g[y][..Width(g)] == g[y];
      assert g[..y + 1][..y] == g[..y];
    }
    assert g[..Height(g)] == g;
  }

  // Part 2: the widened map and `try_move2`.

  /** The two cells a cell of the narrow map becomes. */
  function WideCell(c: char): (r: seq<char>)
    requires c in "#O@."
    ensures |r| == 2
  {
    if c == '#' then "##" else if c == 'O' then "[]" else if c == '@' then "@." else ".."
  }

  function WidenRow(row: seq<char>): (r: seq<char>)
    requires forall i :: 0 <= i < |row| ==> row[i] in "#O@."
    ensures |r| == 2 * |row|
  {
    if row == [] then [] else WideCell(row[0]) + WidenRow(row[1..])
  }

  /** The map of part 2: every cell becomes two side by side. */
  function Widen(g: Grid): (r: Grid)
    requires forall y, x :: 0 <= y < |g| && 0 <= x < |g[y]| ==> g[y][x] in "#O@."
    ensures |r| == |g| && forall y :: 0 <= y < |g| ==> r[y] == WidenRow(g[y])
  {
    if g == [] then [] else [WidenRow(g[0])] + Widen(g[1..])
  }

  /** Cell x of a row becomes cells 2·x and 2·x + 1 of the widened row. */
  lemma {:induction false} WidenRowCells(row: seq<char>, x: nat)
    requires forall i :: 0 <= i < |row| ==> row[i] in "#O@."
    requires x < |row|
    ensures WidenRow(row)[2 * x] == WideCell(row[x])[0] && WidenRow(row)[2 * x + 1] == WideCell(row[x])[1]
  {
    var head, tail := WideCell(row[0]), WidenRow(row[1..]);
    assert WidenRow(row) == head + tail;
    if x > 0 {
      WidenRowCells(row[1..], x - 1);
      assert row[1..][x - 1] == row[x];
      assert (head + tail)[2 * x] == tail[2 * (x - 1)];
      assert (head + tail)[2 * x + 1] == tail[2 * (x - 1) + 1];
    }
  }

  /** Widening keeps the map rectangular, doubles its width, and turns
      `#`, `O`, `@`, `.` at (x, y) into `##`, `[]`, `@.`, `..` at (2·x, y)
      and (2·x + 1, y). */
  lemma WidenCells(g: Grid)
    requires IsGrid(g) && forall y, x :: 0 <= y < |g| && 0 <= x < |g[y]| ==> g[y][x] in "#O@."
    ensures IsGrid(Widen(g)) && Width(Widen(g)) == 2 * Width(g) && Height(Widen(g)) == Height(g)
    ensures forall p :: InBounds(g, p) ==>
      At(Widen(g), (2 * p.0, p.1)) == WideCell(At(g, p))[0] && At(Widen(g), (2 * p.0 + 1, p.1)) == WideCell(At(g, p))[1]
  {
    WidenShape(g);
    forall p | InBounds(g, p)
      ensures At(Widen(g), (2 * p.0, p.1)) == WideCell(At(g, p))[0] && At(Widen(g), (2 * p.0 + 1, p.1)) == WideCell(At(g, p))[1]
    {
      WidenRowCells(g[p.1], p.0);
    }
  }

  /** Widening keeps the map rectangular and doubles its width. */
  lemma WidenShape(g: Grid)
    requires IsGrid(g) && forall y, x :: 0 <= y < |g| && 0 <= x < |g[y]| ==> g[y][x] in "#O@."
    ensures IsGrid(Widen(g)) && Width(Widen(g)) == 2 * Width(g) && Height(Widen(g)) == Height(g)
  {
  }

  /** Reads a widened row back: the left cell of each pair, with `[` read as `O`. */
  function NarrowRow(r: seq<char>): seq<char>
    decreases |r|
  {
    if |r| < 2 then [] else [if r[0] == '[' then 'O' else r[0]] + NarrowRow(r[2..])
  }

  /** Widening loses nothing: the narrow row can be read back. */
  lemma {:induction false} NarrowWidenRow(row: seq<char>)
    requires forall i :: 0 <= i < |row| ==> row[i] in "#O@."
    ensures NarrowRow(WidenRow(row)) == row
  {
    if row != [] {
      NarrowWidenRow(row[1..]);
      assert WidenRow(row)[2..] == WidenRow(row[1..]);
    }
  }

  /** What `try_move2` does: whether the move happened, with the map it
      leaves, or a panic from indexing outside the map. */
  datatype Outcome = Done(ok: bool, grid: Grid) | Panic

  /** `try_move2` as a value. Horizontal pushes of `[` or `]` recurse as
      in part 1 (always for real, whatever `dry` says); vertical pushes
      dry-run both halves of the box, and only when both pass (and `dry`
      is false) move both for real, ignoring what the real moves return.
      The mover is read from `pos` before anything else, so an off-map
      `pos` panics. */
  function Push(g: Grid, pos: Pos, d: nat, dry: bool): (r: Outcome)
    requires IsGrid(g) && d < 4
    ensures r.Done? ==> IsGrid(r.grid) && |r.grid| == |g| && Width(r.grid) == Width(g)
    decreases Reach(g, pos, d), 1
  {
    if !InBounds(g, pos) then Panic
    else
      ReachStep(g, pos, d);
      var next := Step(pos, d);
      if !InBounds(g, next) || At(g, next) == '#' then Done(false, g)
      else if (At(g, next) == '[' || At(g, next) == ']') && (d == 0 || d == 2) then
        match Push(g, next, d, false)
        case Panic => Panic
        case Done(ok, g1) =>
          if !ok then Done(false, g1)
          else if dry then Done(true, g1)
          else Done(true, Set(Set(g1, next, At(g, pos)), pos, '.'))
      else if At(g, next) == '[' || At(g, next) == ']' then
        var other := if At(g, next) == '[' then (next.0 + 1, next.1) else (next.0 - 1, next.1);
        Vertical(g, pos, d, dry, other)
      else if dry then Done(true, g)
      else Done(true, Set(Set(g, next, At(g, pos)), pos, '.'))
  }

  /** The vertical branch of `try_move2`, for a box whose halves stand at
      `Step(pos, d)` and `other`: both halves are dry-run first, and only
      when both pass (and `dry` is false) are both moved for real, their
      answers ignored, and then the mover follows. */
  function Vertical(g: Grid, pos: Pos, d: nat, dry: bool, other: Pos): (r: Outcome)
    requires IsGrid(g) && (d == 1 || d == 3) && InBounds(g, pos) && InBounds(g, Step(pos, d))
    requires other.1 == Step(pos, d).1
    ensures r.Done? ==> IsGrid(r.grid) && |r.grid| == |g| && Width(r.grid) == Width(g)
    decreases Reach(g, pos, d), 0
  {
    var next := Step(pos, d);
    ReachStep(g, pos, d);
    assert Reach(g, other, d) == Reach(g, next, d);
    match Push(g, next, d, true)
    case Panic => Panic
    case Done(a, ga) =>
      if !a then Done(false, ga)
      else
        match Push(ga, other, d, true)
        case Panic => Panic
        case Done(b, gb) =>
          if !b then Done(false, gb)
          else if dry then Done(true, gb)
          else
            match Push(gb, next, d, false)
            case Panic => Panic
            case Done(_, gc) =>
              match Push(gc, other, d, false)
              case Panic => Panic
              case Done(_, gd) => Done(true, Set(Set(gd, next, At(g, pos)), pos, '.'))
  }

  /** A dry run, which only vertical pushes make, writes nothing. */
  lemma {:induction false} DryRunWritesNothing(g: Grid, pos: Pos, d: nat)
    requires IsGrid(g) && (d == 1 || d == 3)
    ensures Push(g, pos, d, true).Done? ==> Push(g, pos, d, true).grid == g
    decreases Reach(g, pos, d)
  {
    if InBounds(g, pos) {
      ReachStep(g, pos, d);
      var next := Step(pos, d);
      if InBounds(g, next) && (At(g, next) == '[' || At(g, next) == ']') {
        var other := if At(g, next) == '[' then (next.0 + 1, next.1) else (next.0 - 1, next.1);
        assert Reach(g, other, d) == Reach(g, next, d);
        DryRunWritesNothing(g, next, d);
        DryRunWritesNothing(g, other, d);
      }
    }
  }

  /** A push that fails writes nothing, dry or not. */
  lemma {:induction false} FailWritesNothing(g: Grid, pos: Pos, d: nat, dry: bool)
    requires IsGrid(g) && d < 4
    ensures Push(g, pos, d, dry).Done? && !Push(g, pos, d, dry).ok ==> Push(g, pos, d, dry).grid == g
    decreases Reach(g, pos, d)
  {
    if InBounds(g, pos) {
      ReachStep(g, pos, d);
      var next := Step(pos, d);
      if InBounds(g, next) && (At(g, next) == '[' || At(g, next) == ']') {
        if d == 0 || d == 2 {
          FailWritesNothing(g, next, d, false);
        } else {
          var other := if At(g, next) == '[' then (next.0 + 1, next.1) else (next.0 - 1, next.1);
          DryRunWritesNothing(g, next, d);
          DryRunWritesNothing(g, other, d);
        }
      }
    }
  }

  /** A vertical push of either half of a box happens only when the dry
      runs of both halves pass, on the unchanged map; and a dry run
      predicts the real push's answer. */
  lemma DryRunPredicts(g: Grid, pos: Pos, d: nat)
    requires IsGrid(g) && (d == 1 || d == 3)
    ensures Push(g, pos, d, false).Done? ==> Push(g, pos, d, true) == Done(Push(g, pos, d, false).ok, g)
    ensures (Push(g, pos, d, false).Done? && Push(g, pos, d, false).ok && InBounds(g, Step(pos, d))
        && At(g, Step(pos, d)) in "[]") ==>
      var next := Step(pos, d);
      var other := if At(g, next) == '[' then (next.0 + 1, next.1) else (next.0 - 1, next.1);
      Push(g, next, d, true) == Done(true, g) && Push(g, other, d, true) == Done(true, g)
  {
    DryRunWritesNothing(g, pos, d);
    if InBounds(g, pos) && InBounds(g, Step(pos, d)) {
      var next := Step(pos, d);
      var other := if At(g, next) == '[' then (next.0 + 1, next.1) else (next.0 - 1, next.1);
      DryRunWritesNothing(g, next, d);
      DryRunWritesNothing(g, other, d);
    }
  }

  /** Pushing horizontally on the wide map is part 1's push with `[` and
      `]` as the boxes. */
  lemma {:induction false} HorizontalIsShove(g: Grid, pos: Pos, d: nat)
    requires IsGrid(g) && InBounds(g, pos) && (d == 0 || d == 2)
    ensures Push(g, pos, d, false) ==
      match Shove(g, pos, d, {'[', ']'})
      case None => Done(false, g)
      case Some(g') => Done(true, g')
    decreases Reach(g, pos, d)
  {
    ReachStep(g, pos, d);
    var next := Step(pos, d);
    if InBounds(g, next) && (At(g, next) == '[' || At(g, next) == ']') {
      HorizontalIsShove(g, next, d);
    }
  }

  /** A successful push leaves the mover one step on and `.` where it stood. */
  lemma MoverAdvances(g: Grid, pos: Pos, d: nat)
    requires IsGrid(g) && d < 4
    ensures var r := Push(g, pos, d, false);
      r.Done? && r.ok ==> (InBounds(g, pos) && InBounds(g, Step(pos, d))
        && At(r.grid, Step(pos, d)) == At(g, pos) && At(r.grid, pos) == '.')
  {
  }

  /** The robot's walk on the wide map, or None when a push panics. */
  function Replay2(g: Grid, pos: Pos, moves: seq<nat>): (r: Option<(Grid, Pos)>)
    requires IsGrid(g) && forall i :: 0 <= i < |moves| ==> moves[i] < 4
    ensures r.Some? ==> IsGrid(r.value.0) && |r.value.0| == |g| && Width(r.value.0) == Width(g)
    decreases |moves|
  {
    if moves == [] then Some((g, pos))
    else match Push(g, pos, moves[0], false)
      case Panic => None
      case Done(ok, g') => Replay2(g', if ok then Step(pos, moves[0]) else pos, moves[1..])
  }

  /** Replay2 from move i on: move i, then the rest. */
  lemma Replay2Next(g: Grid, pos: Pos, moves: seq<nat>, i: nat)
    requires IsGrid(g) && forall i :: 0 <= i < |moves| ==> moves[i] < 4
    requires i < |moves|
    ensures Replay2(g, pos, moves[i..]) ==
      match Push(g, pos, moves[i], false)
      case Panic => None
      case Done(ok, g') => Replay2(g', if ok then Step(pos, moves[i]) else pos, moves[i + 1..])
  {
    assert moves[i..][0] == moves[i] && moves[i..][1..] == moves[i + 1..];
  }

  /** The tracked position holds the robot after every move that does not panic. */
  lemma {:induction false} Replay2Keeps(g: Grid, pos: Pos, moves: seq<nat>)
    requires IsGrid(g) && forall i :: 0 <= i < |moves| ==> moves[i] < 4
    requires InBounds(g, pos) && At(g, pos) == '@'
    ensures var r := Replay2(g, pos, moves); r.Some? ==> InBounds(r.value.0, r.value.1) && At(r.value.0, r.value.1) == '@'
    decreases |moves|
  {
    if moves != [] {
      var d := moves[0];
      MoverAdvances(g, pos, d);
      FailWritesNothing(g, pos, d, false);
      match Push(g, pos, d, false)
      case Panic =>
      case Done(ok, g') =>
        Replay2Keeps(g', if ok then Step(pos, d) else pos, moves[1..]);
    }
  }

  /** The warehouse map that `try_move` and `try_move2` edit in place. */
  class Warehouse {
    var grid: Grid

    constructor (g: Grid)
      ensures grid == g
    {
      grid := g;
    }

    /** Writes one cell of the map. */
    method Put(p: Pos, c: char)
      requires IsGrid(grid) && InBounds(grid, p)
      modifies this
      ensures grid == Set(old(grid), p, c)
    {
      grid := grid[p.1 := grid[p.1][p.0 := c]];
    }

    /** `try_move`: move the thing at `pos` one step in direction d,
        pushing boxes recursively first; false, with nothing written,
        when the push is blocked. */
    method TryMove(pos: Pos, d: nat) returns (moved: bool)
      requires IsGrid(grid) && InBounds(grid, pos) && d < 4
      modifies this
      ensures moved == Shove(old(grid), pos, d, {'O'}).Some?
      ensures grid == if moved then Shove(old(grid), pos, d, {'O'}).value else old(grid)
      decreases Reach(grid, pos, d), 1
    {
      ReachStep(grid, pos, d);
      var height := |grid|;
      var width := |grid[0]|;

      var curPosItem := grid[pos.1][pos.0];
      var dir := Dirs[d];
      var newPos := (pos.0 + dir.0, pos.1 + dir.1);

      // Bounds check
      if newPos.0 < 0 || newPos.0 >= width || newPos.1 < 0 || newPos.1 >= height {
        return false;
      }

      var newPosItem := grid[newPos.1][newPos.0];
      if newPosItem == '#' {
        moved := false;
      } else if newPosItem == 'O' {
        moved := ShoveBox(pos, d);
      } else {
        Put(newPos, curPosItem);
        Put(pos, '.');
        moved := true;
      }
    }

    /** The box branch of `try_move`: the box ahead is pushed first, and
        the mover follows when that succeeds. */
    method ShoveBox(pos: Pos, d: nat) returns (moved: bool)
      requires IsGrid(grid) && InBounds(grid, pos) && d < 4
      requires InBounds(grid, Step(pos, d)) && At(grid, Step(pos, d)) == 'O'
      modifies this
      ensures moved == Shove(old(grid), pos, d, {'O'}).Some?
      ensures grid == if moved then Shove(old(grid), pos, d, {'O'}).value else old(grid)
      decreases Reach(grid, pos, d), 0
    {
      ReachStep(grid, pos, d);
      var curPosItem := grid[pos.1][pos.0];
      var newPos := (pos.0 + Dirs[d].0, pos.1 + Dirs[d].1);
      moved := TryMove(newPos, d);
      if moved {
        Put(newPos, curPosItem);
        Put(pos, '.');
      }
    }

    /** The move loop of `part1`. */
    method Walk(start: Pos, moves: seq<nat>) returns (pos: Pos)
      requires IsGrid(grid) && InBounds(grid, start) && forall i :: 0 <= i < |moves| ==> moves[i] < 4
      modifies this
      ensures (grid, pos) == Replay(old(grid), start, moves)
    {
      pos := start;
      for i := 0 to |moves|
        invariant IsGrid(grid) && InBounds(grid, pos)
        invariant Replay(old(grid), start, moves) == Replay(grid, pos, moves[i..])
      {
        var d := moves[i];
        assert moves[i..][0] == d && moves[i..][1..] == moves[i + 1..];
        var moved := TryMove(pos, d);
        if moved {
          pos := (pos.0 + Dirs[d].0, pos.1 + Dirs[d].1);
        }
      }
    }

    /** `try_move2`: as `TryMove` on the widened map, with the dry-run
        flag; the caller must not make it index outside the map. */
    method TryMove2(pos: Pos, d: nat, dry: bool) returns (moved: bool)
      requires IsGrid(grid) && d < 4 && !Push(grid, pos, d, dry).Panic?
      modifies this
      ensures Push(old(grid), pos, d, dry) == Done(moved, grid)
      decreases Reach(grid, pos, d), 1
    {
      ReachStep(grid, pos, d);
      var height := |grid|;
      var width := |grid[0]|;

      var curPosItem := grid[pos.1][pos.0];
      var dir := Dirs[d];
      var newPos := (pos.0 + dir.0, pos.1 + dir.1);

      // Bounds check
      if newPos.0 < 0 || newPos.0 >= width || newPos.1 < 0 || newPos.1 >= height {
        return false;
      }

      var newPosItem := grid[newPos.1][newPos.0];
      if newPosItem == '#' {
        moved := false;
      } else if (newPosItem == '[' || newPosItem == ']') && (d == 0 || d == 2) {
        moved := PushAlong(pos, d, dry);
      } else if newPosItem == '[' && (d == 1 || d == 3) {
        // Pushing the left half of a box vertically
        moved := PushBox(pos, d, dry, (newPos.0 + 1, newPos.1));
      } else if newPosItem == ']' && (d == 1 || d == 3) {
        // Pushing the right half of a box vertically
        moved := PushBox(pos, d, dry, (newPos.0 - 1, newPos.1));
      } else {
        if !dry {
          Put(newPos, curPosItem);
          Put(pos, '.');
        }
        moved := true;
      }
    }

    /** The horizontal branch of `try_move2`: the box half ahead is
        pushed first, and the mover follows when that succeeds. */
    method PushAlong(pos: Pos, d: nat, dry: bool) returns (moved: bool)
      requires IsGrid(grid) && (d == 0 || d == 2) && InBounds(grid, pos) && InBounds(grid, Step(pos, d))
      requires At(grid, Step(pos, d)) == '[' || At(grid, Step(pos, d)) == ']'
      requires !Push(grid, pos, d, dry).Panic?
      modifies this
      ensures Push(old(grid), pos, d, dry) == Done(moved, grid)
      decreases Reach(grid, pos, d), 0
    {
      ReachStep(grid, pos, d);
      var curPosItem := grid[pos.1][pos.0];
      var newPos := (pos.0 + Dirs[d].0, pos.1 + Dirs[d].1);
      moved := TryMove2(newPos, d, false);
      if moved && !dry {
        Put(newPos, curPosItem);
        Put(pos, '.');
      }
    }

    /** The vertical branches of `try_move2`, for a box whose other half
        stands at `other`. */
    method PushBox(pos: Pos, d: nat, dry: bool, other: Pos) returns (moved: bool)
      requires IsGrid(grid) && (d == 1 || d == 3) && InBounds(grid, pos) && InBounds(grid, Step(pos, d))
      requires other.1 == Step(pos, d).1 && !Vertical(grid, pos, d, dry, other).Panic?
      modifies this
      ensures Vertical(old(grid), pos, d, dry, other) == Done(moved, grid)
      decreases Reach(grid, pos, d), 0
    {
      ReachStep(grid, pos, d);
      var curPosItem := grid[pos.1][pos.0];
      var newPos := (pos.0 + Dirs[d].0, pos.1 + Dirs[d].1);
      assert Reach(grid, other, d) == Reach(grid, newPos, d);
      moved := TryMove2(newPos, d, true);
      if moved {
        moved := TryMove2(other, d, true);
      }
      if moved && !dry {
        var ignored := TryMove2(newPos, d, false);
        ignored := TryMove2(other, d, false);
        Put(newPos, curPosItem);
        Put(pos, '.');
      }
    }

    /** The move loop of `part2`; None where a push would panic. */
    method Walk2(start: Pos, moves: seq<nat>) returns (pos: Option<Pos>)
      requires IsGrid(grid) && forall i :: 0 <= i < |moves| ==> moves[i] < 4
      modifies this
      ensures Replay2(old(grid), start, moves) == if pos.Some? then Some((grid, pos.value)) else None
    {
      var p := start;
      for i := 0 to |moves|
        invariant IsGrid(grid)
        invariant Replay2(old(grid), start, moves) == Replay2(grid, p, moves[i..])
      {
        var d := moves[i];
        Replay2Next(grid, p, moves, i);
        if Push(grid, p, d, false).Panic? {
          return None;
        }
        var moved := TryMove2(p, d, false);
        if moved {
          p := (p.0 + Dirs[d].0, p.1 + Dirs[d].1);
        }
      }
      assert moves[|moves|..] == [];
      return Some(p);
    }
  }

  /** `part1`: the robot at the last `@` of a row-by-row scan (or (0, 0)
      when there is none) makes every move, and the boxes' GPS
      coordinates are summed. The first row must not be empty: the robot's
      cell is read. */
  method Part1(g: Grid, text: seq<char>) returns (start: Pos, final: Grid, result: nat)
    requires IsGrid(g) && Width(g) > 0
    ensures LastInRows(g, '@', start, 0, Height(g)) && InBounds(g, start)
    ensures final == Replay(g, start, Moves(text)).0
    ensures result == Score(final, 'O')
  {
    var moves := Moves(text);
    start := ScanRows(g, '@');
    var warehouse := new Warehouse(g);
    var pos := warehouse.Walk(start, moves);
    final := warehouse.grid;
    result := GpsSum(final, 'O');
  }

  /** `part2`: widen the map, walk the robot from the last `@` of the
      widened map, and sum the GPS coordinates of the boxes' left halves;
      None where a push would panic. */
  method Part2(g: Grid, text: seq<char>) returns (start: Pos, result: Option<nat>)
    requires IsGrid(g) && Width(g) > 0
    requires forall y, x :: 0 <= y < |g| && 0 <= x < |g[y]| ==> g[y][x] in "#O@."
    ensures IsGrid(Widen(g)) && LastInRows(Widen(g), '@', start, 0, Height(g))
    ensures var r := Replay2(Widen(g), start, Moves(text));
      result == if r.Some? then Some(Score(r.value.0, '[')) else None
  {
    var moves := Moves(text);
    WidenCells(g);
    var wide := Widen(g);
    start := ScanRows(wide, '@');
    var warehouse := new Warehouse(wide);
    var pos := warehouse.Walk2(start, moves);
    if pos.None? {
      return start, None;
    }
    var score := GpsSum(warehouse.grid, '[');
    result := Some(score);
  }
}
