/** Day 6, "Guard Gallivant": a guard walks the map, turning right before
    every `#`; part 1 counts the cells it covers before it leaves the map,
    part 2 counts the cells where one more obstacle would trap it in a loop. */
module Day06 {
  import opened Common

  /** The guard: where it stands and which of the four `Dirs` it faces. */
  datatype Guard = Guard(pos: Pos, dir: nat)

  predicate OnMap(g: Grid, s: Guard)
    requires IsGrid(g)
  {
    InBounds(g, s.pos) && s.dir < 4
  }

  /** Every guard state on the map. */
  function States(g: Grid): (r: set<Guard>)
    requires IsGrid(g)
    ensures forall s :: s in r <==> OnMap(g, s)
  {
    set x, y, d | 0 <= x < Width(g) && 0 <= y < Height(g) && 0 <= d < 4 :: Guard((x, y), d)
  }

  /** One move of the guard: None when the cell ahead is off the map;
      otherwise a turn right in place before a `#`, or a step forward. */
  function Advance(g: Grid, s: Guard): (r: Option<Guard>)
    requires IsGrid(g) && OnMap(g, s)
    ensures r.Some? ==> OnMap(g, r.value)
  {
    var next := Step(s.pos, s.dir);
    if !InBounds(g, next) then None
    else if At(g, next) == '#' then Some(Guard(s.pos, (s.dir + 1) % 4))
    else Some(Guard(next, s.dir))
  }

  /** `Advance` as a step function on all states; off the map it stops. */
  function Move(g: Grid): Guard -> Option<Guard>
    requires IsGrid(g)
  {
    t => if OnMap(g, t) then Advance(g, t) else None
  }

  /** The guard after k moves from s, or None once it has left the map. */
  function Trace(g: Grid, s: Guard, k: nat): Option<Guard>
    requires IsGrid(g)
  {
    Orbit(Move(g), s, k)
  }

  /** One more move is `Advance` applied to the guard where it stands. */
  lemma TraceStep(g: Grid, s: Guard, k: nat)
    requires IsGrid(g) && Trace(g, s, k).Some? && OnMap(g, Trace(g, s, k).value)
    ensures Trace(g, s, k + 1) == Advance(g, Trace(g, s, k).value)
  {
  }

  /** A guard that starts on the map stays on it while it walks. */
  lemma {:induction false} TraceOnMap(g: Grid, s: Guard, k: nat)
    requires IsGrid(g) && OnMap(g, s)
    ensures Trace(g, s, k).Some? ==> OnMap(g, Trace(g, s, k).value)
  {
    if k > 0 {
      TraceOnMap(g, s, k - 1);
    }
  }

  /** The guard is still on the map after k moves, and move k + 1 leaves it. */
  ghost predicate ExitsAt(g: Grid, s: Guard, k: nat)
    requires IsGrid(g)
  {
    StopsAt(Move(g), s, k)
  }

  ghost predicate Exits(g: Grid, s: Guard)
    requires IsGrid(g)
  {
    Stops(Move(g), s)
  }

  /** Some state (cell and direction) of the walk recurs. */
  ghost predicate Loops(g: Grid, s: Guard)
    requires IsGrid(g)
  {
    Repeats(Move(g), s)
  }

  /** Walls alone steer the guard: maps of one size with the same `#`
      cells give the same walk. */
  lemma SameLoops(g1: Grid, g2: Grid, s: Guard)
    requires IsGrid(g1) && IsGrid(g2) && |g1| == |g2| && Width(g1) == Width(g2)
    requires forall q :: InBounds(g1, q) ==> (At(g1, q) == '#' <==> At(g2, q) == '#')
    ensures Loops(g1, s) <==> Loops(g2, s)
  {
    assert forall t :: Move(g1)(t) == Move(g2)(t);
    forall k: nat ensures Orbit(Move(g1), s, k) == Orbit(Move(g2), s, k) {
      SameOrbit(Move(g1), Move(g2), s, k);
    }
  }

  // Part 1: the walk that marks every cell it covers with `X`.

  /** The map the part 1 guard walks: its first act marks its own cell,
      so even a start on `#` (when there is no `^`) is open from then on. */
  function Started(g: Grid, start: Pos): Grid
    requires IsGrid(g) && InBounds(g, start)
  {
    Set(g, start, 'X')
  }

  /** When the start is not a wall, marking it changes nothing about the walk. */
  lemma StartedWalk(g: Grid, start: Pos, k: nat)
    requires IsGrid(g) && InBounds(g, start) && At(g, start) != '#'
    ensures Trace(Started(g, start), Guard(start, 3), k) == Trace(g, Guard(start, 3), k)
  {
    var w := Started(g, start);
    assert forall t :: Move(w)(t) == Move(g)(t);
    SameOrbit(Move(w), Move(g), Guard(start, 3), k);
  }

  /** The cells the guard stands on in its first k + 1 states. */
  ghost function Positions(g: Grid, s: Guard, k: nat): set<Pos>
    requires IsGrid(g)
  {
    set i | 0 <= i <= k && Trace(g, s, i).Some? :: Trace(g, s, i).value.pos
  }

  /** A guard that starts off the walls never stands on one. */
  lemma {:induction false} OpenWalk(w: Grid, s: Guard, k: nat)
    requires IsGrid(w) && OnMap(w, s) && At(w, s.pos) != '#'
    ensures Trace(w, s, k).Some? ==> OnMap(w, Trace(w, s, k).value) && At(w, Trace(w, s, k).value.pos) != '#'
  {
    if k > 0 {
      OpenWalk(w, s, k - 1);
      if Trace(w, s, k - 1).Some? {
        TraceStep(w, s, k - 1);
      }
    }
  }

  /** g with the cells of the first n states of the walk on w marked `X`. */
  function Marked(g: Grid, w: Grid, s: Guard, n: nat): (r: Grid)
    requires IsGrid(g) && IsGrid(w) && |w| == |g| && Width(w) == Width(g) && OnMap(w, s)
    ensures IsGrid(r) && |r| == |g| && Width(r) == Width(g)
  {
    if n == 0 then g
    else if Trace(w, s, n - 1).None? then Marked(g, w, s, n - 1)
    else
      TraceOnMap(w, s, n - 1);
      Set(Marked(g, w, s, n - 1), Trace(w, s, n - 1).value.pos, 'X')
  }

  /** A cell is marked exactly when it was `X` already or the guard stood on it. */
  lemma {:induction false} MarkedCells(g: Grid, w: Grid, s: Guard, n: nat, p: Pos)
    requires IsGrid(g) && IsGrid(w) && |w| == |g| && Width(w) == Width(g) && OnMap(w, s)
    requires n > 0 && InBounds(g, p)
    ensures At(Marked(g, w, s, n), p) == 'X' <==> At(g, p) == 'X' || p in Positions(w, s, n - 1)
  {
    if n > 1 {
      MarkedCells(g, w, s, n - 1, p);
      var later := if Trace(w, s, n - 1).Some? then {Trace(w, s, n - 1).value.pos} else {};
      assert Positions(w, s, n - 1) == Positions(w, s, n - 2) + later;
    } else if p == s.pos {
      assert Trace(w, s, 0).value.pos == p;
    } else {
      assert p !in Positions(w, s, 0);
    }
  }

  /** Once the start is marked, the marked map has the walls of the map
      the guard walks. */
  lemma {:induction false} MarkedWalls(g: Grid, start: Pos, n: nat, q: Pos)
    requires IsGrid(g) && InBounds(g, start) && n > 0 && InBounds(g, q)
    ensures At(Marked(g, Started(g, start), Guard(start, 3), n), q) == '#' <==> At(Started(g, start), q) == '#'
  {
    var w, s := Started(g, start), Guard(start, 3);
    if n > 1 {
      MarkedWalls(g, start, n - 1, q);
      OpenWalk(w, s, n - 1);
    }
  }

  /** The cells of g holding c. */
  ghost function CellsWith(g: Grid, c: char): set<Pos>
    requires IsGrid(g)
  {
    set p | p in Cells(g) && At(g, p) == c
  }

  /** The count loop at the end of `part1`. */
  method CountCells(g: Grid, c: char) returns (count: nat)
    requires IsGrid(g)
    ensures count == |CellsWith(g, c)|
  {
    ghost var S := CellsWith(g, c);
    RowScanAll(S, Height(g));
    count := 0;
    for y := 0 to Height(g)
      invariant count == |RowScanned(S, 0, y)|
    {
      for x := 0 to Width(g)
        invariant count == |RowScanned(S, x, y)|
      {
        RowScanNext(S, x, y);
        if g[y][x] == c {
          count := count + 1;
        }
      }
      RowScanWrap(S, Width(g), y);
    }
  }

  /** The cells the guard covers in its first n + 1 states, with any `X`
      already on the map. */
  ghost function Covered(g: Grid, start: Pos, n: nat): set<Pos>
    requires IsGrid(g) && InBounds(g, start)
  {
    set p | p in Cells(g) && (At(g, p) == 'X' || p in Positions(Started(g, start), Guard(start, 3), n))
  }

  lemma CoveredCells(g: Grid, start: Pos, n: nat)
    requires IsGrid(g) && InBounds(g, start)
    ensures CellsWith(Marked(g, Started(g, start), Guard(start, 3), n + 1), 'X') == Covered(g, start, n)
  {
    var w, s := Started(g, start), Guard(start, 3);
    forall p ensures p in CellsWith(Marked(g, w, s, n + 1), 'X') <==> p in Covered(g, start, n) {
      if InBounds(g, p) {
        MarkedCells(g, w, s, n + 1, p);
      }
    }
  }

  /** One pass of the walking loop: mark the guard's cell, then either
      stop at the edge or make the move `Advance` makes, reading the
      marked map. */
  lemma PatrolStep(g: Grid, start: Pos, n: nat, pos: Pos, dir: nat, input: Grid)
    requires IsGrid(g) && InBounds(g, start) && InBounds(g, pos) && dir < 4
    requires Trace(Started(g, start), Guard(start, 3), n) == Some(Guard(pos, dir))
    requires input == Marked(g, Started(g, start), Guard(start, 3), n)
    ensures IsGrid(input) && |input| == |g| && Width(input) == Width(g)
    ensures Set(input, pos, 'X') == Marked(g, Started(g, start), Guard(start, 3), n + 1)
    ensures !InBounds(g, Step(pos, dir)) ==> ExitsAt(Started(g, start), Guard(start, 3), n)
    ensures InBounds(g, Step(pos, dir)) ==>
      var next := Step(pos, dir);
      Trace(Started(g, start), Guard(start, 3), n + 1)
        == Some(if At(Set(input, pos, 'X'), next) == '#' then Guard(pos, (dir + 1) % 4) else Guard(next, dir))
  {
    var w, s := Started(g, start), Guard(start, 3);
    TraceStep(w, s, n);
    if InBounds(g, Step(pos, dir)) {
      MarkedWalls(g, start, n + 1, Step(pos, dir));
    }
  }

  /** The walking loop of `part1`, with at most `fuel` moves: the map
      with every cell the guard stood on marked `X`, once it is about to
      leave; None when it is still on the map after `fuel` moves. */
  method Patrol(g: Grid, start: Pos, fuel: nat) returns (walked: Option<Grid>, ghost steps: nat)
    requires IsGrid(g) && InBounds(g, start)
    ensures walked.None? ==> Trace(Started(g, start), Guard(start, 3), fuel).Some?
    ensures walked.Some? ==> (steps < fuel && ExitsAt(Started(g, start), Guard(start, 3), steps)
      && walked.value == Marked(g, Started(g, start), Guard(start, 3), steps + 1))
  {
    var input := g;
    var height := |input|;
    var width := |input[0]|;
    var pos := start;
    var dirIndex: nat := 3;

    ghost var w, s0 := Started(g, start), Guard(start, 3);
    var n: nat := 0;
    while n < fuel
      invariant n <= fuel && InBounds(g, pos) && dirIndex < 4
      invariant Trace(w, s0, n) == Some(Guard(pos, dirIndex))
      invariant input == Marked(g, w, s0, n)
    {
      PatrolStep(g, start, n, pos, dirIndex, input);
      // Mark current position as walked
      input := Set(input, pos, 'X');

      var dir := Dirs[dirIndex];
      var nextPos := (pos.0 + dir.0, pos.1 + dir.1);
      assert nextPos == Step(pos, dirIndex);
      if nextPos.0 < 0 || nextPos.0 >= width || nextPos.1 < 0 || nextPos.1 >= height {
        return Some(input), n;
      }
      assert InBounds(input, nextPos);

      if input[nextPos.1][nextPos.0] == '#' {
        dirIndex := (dirIndex + 1) % 4;
      } else {
        pos := nextPos;
      }
      n := n + 1;
    }
    walked, steps := None, n;
  }

  /** `part1`, with at most `fuel` moves: the guard starts at the last `^`
      of a row scan (or (0, 0)) facing up, and the answer is the number
      of `X` cells once it is about to leave the map: the cells it stood
      on, together with any `X` already there. None when it is still on
      the map after `fuel` moves. The first row must not be empty. */
  method Part1(g: Grid, fuel: nat) returns (start: Pos, result: Option<nat>)
    requires IsGrid(g) && Width(g) > 0
    ensures LastInRows(g, '^', start, 0, Height(g)) && InBounds(g, start)
    ensures result.None? ==> Trace(Started(g, start), Guard(start, 3), fuel).Some?
    ensures result.Some? ==> exists k: nat :: (k < fuel && ExitsAt(Started(g, start), Guard(start, 3), k)
      && result.value == |Covered(g, start, k)|)
  {
    start := ScanRows(g, '^');
    var walked;
    ghost var k;
    walked, k := Patrol(g, start, fuel);
    if walked.None? {
      return start, None;
    }
    // Count walked tiles
    var numWalked := CountCells(walked.value, 'X');
    CoveredCells(g, start, k);
    result := Some(numWalked);
  }

  // Part 2: `does_loop` and the obstacle trials.

  /** A recurring state is a loop, and a guard in a loop never leaves. */
  lemma Recurs(g: Grid, s: Guard, i: nat, j: nat)
    requires IsGrid(g) && i < j && Trace(g, s, i).Some? && Trace(g, s, i) == Trace(g, s, j)
    ensures Loops(g, s) && !Exits(g, s)
  {
    RepeatsNeverStops(Move(g), s);
  }

  /** Leaving at some move is leaving, and a guard that leaves does not loop. */
  lemma Leaves(g: Grid, s: Guard, k: nat)
    requires IsGrid(g) && ExitsAt(g, s, k)
    ensures Exits(g, s) && !Loops(g, s)
  {
    RepeatsNeverStops(Move(g), s);
  }

  /** One move of the walk as `does_loop` takes it, to the cell `next`
      ahead: off the map it stops, facing `#` it turns, otherwise it steps. */
  lemma WalkStep(g: Grid, s: Guard, k: nat, pos: Pos, dir: nat, next: Pos)
    requires IsGrid(g) && InBounds(g, pos) && dir < 4 && Trace(g, s, k) == Some(Guard(pos, dir))
    requires next == (pos.0 + Dirs[dir].0, pos.1 + Dirs[dir].1)
    ensures next.0 < 0 || next.0 >= Width(g) || next.1 < 0 || next.1 >= |g| ==> ExitsAt(g, s, k)
    ensures 0 <= next.0 < Width(g) && 0 <= next.1 < |g| && g[next.1][next.0] == '#' ==>
      Trace(g, s, k + 1) == Some(Guard(pos, (dir + 1) % 4))
    ensures 0 <= next.0 < Width(g) && 0 <= next.1 < |g| && g[next.1][next.0] != '#' ==>
      Trace(g, s, k + 1) == Some(Guard(next, dir))
  {
    TraceStep(g, s, k);
  }

  /** `first` maps each state met in the first k moves to the move at which it was met. */
  ghost predicate Recorded(g: Grid, s: Guard, k: nat, first: map<Guard, nat>)
    requires IsGrid(g)
  {
    forall t :: t in first ==> OnMap(g, t) && first[t] < k && Trace(g, s, first[t]) == Some(t)
  }

  /** Recording the state of move k keeps the record. */
  lemma Record(g: Grid, s: Guard, k: nat, first: map<Guard, nat>, t: Guard)
    requires IsGrid(g) && Recorded(g, s, k, first) && OnMap(g, t) && Trace(g, s, k) == Some(t)
    ensures Recorded(g, s, k + 1, first[t := k])
  {
  }

  /** A state not yet recorded leaves room for it among all states. */
  lemma Room(g: Grid, s: Guard, k: nat, first: map<Guard, nat>, t: Guard)
    requires IsGrid(g) && Recorded(g, s, k, first) && t !in first && OnMap(g, t)
    ensures |first| < |States(g)|
  {
    var met := first.Keys + {t};
    assert met <= States(g);
    assert States(g) == met + (States(g) - met);
  }

  /** `seen` holds exactly the states recorded in `first`. */
  ghost predicate Marks(seen: array3<bool>, first: map<Guard, nat>)
    reads seen
  {
    forall y, x, d :: 0 <= y < seen.Length0 && 0 <= x < seen.Length1 && 0 <= d < seen.Length2 ==>
      (seen[y, x, d] <==> Guard((x, y), d) in first)
  }

  /** Marks the guard's state as seen. */
  method See(seen: array3<bool>, ghost first: map<Guard, nat>, pos: Pos, dir: nat, ghost k: nat)
    requires Marks(seen, first) && 0 <= pos.1 < seen.Length0 && 0 <= pos.0 < seen.Length1 && dir < seen.Length2
    modifies seen
    ensures Marks(seen, first[Guard(pos, dir) := k])
  {
    seen[pos.1, pos.0, dir] := true;
  }

  /** The move of `does_loop` from (pos, dir), the state of move k:
      it exits when the next cell is off the map, turns right before a
      `#`, and steps forward otherwise. */
  method MoveGuard(input: Grid, ghost s: Guard, ghost k: nat, pos: Pos, dir: nat) returns (exits: bool, pos': Pos, dir': nat)
    requires IsGrid(input) && InBounds(input, pos) && dir < 4 && Trace(input, s, k) == Some(Guard(pos, dir))
    ensures exits ==> Exits(input, s) && !Loops(input, s)
    ensures !exits ==> InBounds(input, pos') && dir' < 4 && Trace(input, s, k + 1) == Some(Guard(pos', dir'))
  {
    var d := Dirs[dir];
    var nextPos := (pos.0 + d.0, pos.1 + d.1);
    WalkStep(input, s, k, pos, dir, nextPos);
    if nextPos.0 < 0 || nextPos.0 >= |input[0]| || nextPos.1 < 0 || nextPos.1 >= |input| {
      Leaves(input, s, k);
      return true, pos, dir;
    }
    exits, pos', dir' := false, pos, dir;
    if input[nextPos.1][nextPos.0] == '#' {
      dir' := (dir + 1) % 4;
    } else {
      pos' := nextPos;
    }
  }

  /** `does_loop`: walk from `initialPos` facing up, recording every
      (cell, direction) in `seen`; true on the first repeat, false when
      the next step leaves the map. The `seen` array bounds the walk. */
  method DoesLoop(input: Grid, initialPos: Pos) returns (looped: bool)
    requires IsGrid(input) && InBounds(input, initialPos)
    ensures looped <==> Loops(input, Guard(initialPos, 3))
    ensures looped <==> !Exits(input, Guard(initialPos, 3))
  {
    var height := |input|;
    var width := |input[0]|;
    var seen := new bool[height, width, 4]((y, x, d) => false);
    var pos := initialPos;
    var dirIndex: nat := 3;
    ghost var s := Guard(initialPos, 3);
    ghost var k: nat := 0;
    ghost var first: map<Guard, nat> := map[];

    while true
      invariant seen.Length0 == height && seen.Length1 == width && seen.Length2 == 4
      invariant InBounds(input, pos) && dirIndex < 4
      invariant Trace(input, s, k) == Some(Guard(pos, dirIndex))
      invariant Recorded(input, s, k, first) && Marks(seen, first)
      invariant |first| <= |States(input)|
      decreases |States(input)| - |first|
    {
      if seen[pos.1, pos.0, dirIndex] {
        // We've already been here, facing this direction: a loop
        Recurs(input, s, first[Guard(pos, dirIndex)], k);
        return true;
      }
      See(seen, first, pos, dirIndex, k);
      Room(input, s, k, first, Guard(pos, dirIndex));
      Record(input, s, k, first, Guard(pos, dirIndex));
      first := first[Guard(pos, dirIndex) := k];

      var exits;
      exits, pos, dirIndex := MoveGuard(input, s, k, pos, dirIndex);
      if exits {
        return false;
      }
      k := k + 1;
    }
  }

  /** An obstacle at p, which is neither `#` nor `^`, traps the guard. */
  ghost predicate Traps(g: Grid, start: Pos, p: Pos)
    requires IsGrid(g) && InBounds(g, start)
  {
    InBounds(g, p) && At(g, p) != '#' && At(g, p) != '^' && Loops(Set(g, p, '#'), Guard(start, 3))
  }

  /** The cells where an obstacle traps the guard. */
  ghost function Trapping(g: Grid, start: Pos): set<Pos>
    requires IsGrid(g) && InBounds(g, start)
  {
    set p | p in Cells(g) && Traps(g, start, p)
  }

  /** `input` is g with some cells that are neither `#` nor `^` reset to `.`. */
  ghost predicate Restored(g: Grid, input: Grid)
    requires IsGrid(g)
  {
    && IsGrid(input) && |input| == |g| && Width(input) == Width(g)
    && forall q :: InBounds(g, q) ==> At(input, q) == At(g, q) || (At(g, q) != '#' && At(g, q) != '^' && At(input, q) == '.')
  }

  /** One obstacle trial on the partly reset map: it is made exactly
      where it would be made on g, it loops exactly when the cell traps
      the guard, and resetting the cell to `.` keeps the map restored. */
  lemma Trial(g: Grid, start: Pos, input: Grid, p: Pos)
    requires IsGrid(g) && InBounds(g, start) && Restored(g, input) && InBounds(g, p)
    ensures var c := At(input, p); c != '#' && c != '^' <==> At(g, p) != '#' && At(g, p) != '^'
    ensures At(input, p) != '#' && At(input, p) != '^' ==>
      && (Loops(Set(input, p, '#'), Guard(start, 3)) <==> p in Trapping(g, start))
      && Restored(g, Set(Set(input, p, '#'), p, '.'))
    ensures At(input, p) == '#' || At(input, p) == '^' ==> p !in Trapping(g, start)
  {
    if At(input, p) != '#' && At(input, p) != '^' {
      SameLoops(Set(input, p, '#'), Set(g, p, '#'), Guard(start, 3));
    }
  }

  /** One trial of `part2`: the cell (x, y) becomes an obstacle unless it
      is `#` or `^`, the guard is walked, and the cell is reset to `.`. */
  method TryObstacle(ghost g: Grid, start: Pos, input: Grid, x: nat, y: nat) returns (looped: bool, after: Grid)
    requires IsGrid(g) && InBounds(g, start) && Restored(g, input) && InBounds(g, (x, y))
    ensures Restored(g, after)
    ensures looped <==> (x, y) in Trapping(g, start)
  {
    Trial(g, start, input, (x, y));
    after := input;
    looped := false;
    if after[y][x] != '#' && after[y][x] != '^' {
      // Try turning it into an obstacle
      after := after[y := after[y][x := '#']];
      assert after == Set(input, (x, y), '#');
      looped := DoesLoop(after, start);
      // Remove the obstacle for the next test
      after := after[y := after[y][x := '.']];
      assert after == Set(Set(input, (x, y), '#'), (x, y), '.');
    }
  }

  /** The trial loop of `part2`. */
  method CountTraps(g: Grid, start: Pos) returns (numLoops: nat)
    requires IsGrid(g) && InBounds(g, start)
    ensures numLoops == |Trapping(g, start)|
  {
    var input := g;
    var height := |input|;
    var width := |input[0]|;
    ghost var S := Trapping(g, start);
    RowScanAll(S, height);
    numLoops := 0;
    for y := 0 to height
      invariant Restored(g, input)
      invariant numLoops == |RowScanned(S, 0, y)|
    {
      for x := 0 to width
        invariant Restored(g, input)
        invariant numLoops == |RowScanned(S, x, y)|
      {
        RowScanNext(S, x, y);
        var looped;
        looped, input := TryObstacle(g, start, input, x, y);
        if looped {
          numLoops := numLoops + 1;
        }
      }
      RowScanWrap(S, width, y);
    }
  }

  /** `part2`: every cell that is neither `#` nor `^` is tried as an
      obstacle and reset to `.`; the answer counts the cells where the
      guard, starting as in part 1, loops. On a map whose rows are empty
      there is no cell to try, and the answer is 0. */
  method Part2(g: Grid) returns (start: Pos, numLoops: nat)
    requires IsGrid(g)
    ensures LastInRows(g, '^', start, 0, Height(g))
    ensures Width(g) > 0 ==> InBounds(g, start) && numLoops == |Trapping(g, start)|
    ensures Width(g) == 0 ==> numLoops == 0
  {
    start := ScanRows(g, '^');
    if Width(g) == 0 {
      numLoops := 0;
    } else {
      numLoops := CountTraps(g, start);
    }
  }
}
