/** Shared vocabulary of the grid puzzles: optional results, integer
    positions, the four unit steps, and read-only rectangular grids of
    ASCII cell symbols (the `Vec<Vec<u8>>` maps, one `char` per byte). */
module Common {

  datatype Option<T> = None | Some(value: T)

  /** (x, y) with (0, 0) the top-left cell; x grows to the right, y downwards. */
  type Pos = (int, int)

  /** The `DIRS` table shared by the solvers, in "turn right" order:
      east, south, west, north. */
  const Dirs: seq<Pos> := [(1, 0), (0, 1), (-1, 0), (0, -1)]

  function Step(p: Pos, d: nat): Pos
    requires d < 4
  {
    (p.0 + Dirs[d].0, p.1 + Dirs[d].1)
  }

  /** The four neighbours, in `DIRS` order. */
  function Neighbours(p: Pos): seq<Pos>
  {
    [Step(p, 0), Step(p, 1), Step(p, 2), Step(p, 3)]
  }

  /** A quarter turn clockwise in `DIRS`: the source's `(d + 1) % 4`. */
  function Clockwise(d: nat): (r: nat)
    requires d < 4
    ensures r < 4 && r == (d + 1) % 4
  {
    if d < 3 then d + 1 else 0
  }

  /** A quarter turn anticlockwise: the source's `(d + 3) % 4`. */
  function Anticlockwise(d: nat): (r: nat)
    requires d < 4
    ensures r < 4 && r == (d + 3) % 4 && Clockwise(r) == d
  {
    if d > 0 then d - 1 else 3
  }

  predicate Adjacent(p: Pos, q: Pos)
  {
    q == Step(p, 0) || q == Step(p, 1) || q == Step(p, 2) || q == Step(p, 3)
  }

  type Grid = seq<seq<char>>

  /** A map read from text: at least one row (the solvers read `map[0]`),
      all rows as long as the first. */
  predicate IsGrid(g: Grid)
  {
    |g| > 0 && forall y :: 0 <= y < |g| ==> |g[y]| == |g[0]|
  }

  function Width(g: Grid): nat
    requires IsGrid(g)
  {
    |g[0]|
  }

  function Height(g: Grid): nat
  {
    |g|
  }

  predicate InBounds(g: Grid, p: Pos)
    requires IsGrid(g)
  {
    0 <= p.0 < Width(g) && 0 <= p.1 < Height(g)
  }

  function At(g: Grid, p: Pos): char
    requires IsGrid(g) && InBounds(g, p)
  {
    g[p.1][p.0]
  }

  /** The cells of a grid, as a finite set of positions. */
  function Cells(g: Grid): (cells: set<Pos>)
    requires IsGrid(g)
    ensures forall p :: p in cells <==> InBounds(g, p)
  {
    set x, y | 0 <= x < Width(g) && 0 <= y < Height(g) :: (x, y)
  }

  /** The map with `map[p.1][p.0] = c`; every other cell is kept. */
  function Set(g: Grid, p: Pos, c: char): (r: Grid)
    requires IsGrid(g) && InBounds(g, p)
    ensures IsGrid(r) && |r| == |g| && Width(r) == Width(g)
    ensures forall q :: InBounds(g, q) ==> At(r, q) == if q == p then c else At(g, q)
  {
    g[p.1 := g[p.1][p.0 := c]]
  }

  /** In bounds and not a wall `#`: where the searches may step. */
  predicate Open(g: Grid, p: Pos)
    requires IsGrid(g)
  {
    InBounds(g, p) && At(g, p) != '#'
  }

  /** `a > b` in Rust's derived order on `(i32, i32)`: x first, then y. */
  predicate PosGreater(a: Pos, b: Pos)
  {
    a.0 > b.0 || (a.0 == b.0 && a.1 > b.1)
  }

  /** `a` comes later than `b` in a scan that runs y then x. */
  predicate RowLater(a: Pos, b: Pos)
  {
    a.1 > b.1 || (a.1 == b.1 && a.0 > b.0)
  }

  /** A column scan (`for x { for y { .. } }`) standing at (x, y) has
      visited q. */
  predicate ColumnsVisited(q: Pos, x: int, y: int)
  {
    q.0 < x || (q.0 == x && q.1 < y)
  }

  /** A row scan (`for y { for x { .. } }`) standing at (x, y) has visited q. */
  predicate RowsVisited(q: Pos, x: int, y: int)
  {
    q.1 < y || (q.1 == y && q.0 < x)
  }

  /** After a column scan has visited the cells up to (x, y), p is the last
      visited cell holding c, or (0, 0) if none did. */
  ghost predicate LastInColumns(g: Grid, c: char, p: Pos, x: int, y: int)
    requires IsGrid(g)
  {
    || (p == (0, 0) && forall q :: InBounds(g, q) && ColumnsVisited(q, x, y) ==> At(g, q) != c)
    || (&& InBounds(g, p) && ColumnsVisited(p, x, y) && At(g, p) == c
        && forall q :: InBounds(g, q) && ColumnsVisited(q, x, y) && At(g, q) == c ==> !PosGreater(q, p))
  }

  /** The same for a row scan. */
  ghost predicate LastInRows(g: Grid, c: char, p: Pos, x: int, y: int)
    requires IsGrid(g)
  {
    || (p == (0, 0) && forall q :: InBounds(g, q) && RowsVisited(q, x, y) ==> At(g, q) != c)
    || (&& InBounds(g, p) && RowsVisited(p, x, y) && At(g, p) == c
        && forall q :: InBounds(g, q) && RowsVisited(q, x, y) && At(g, q) == c ==> !RowLater(q, p))
  }

  /** The start-and-goal scan of the maze solvers: the last cell holding
      c1 and the last holding c2, columns outermost; (0, 0) when absent. */
  method ScanColumns(g: Grid, c1: char, c2: char) returns (p1: Pos, p2: Pos)
    requires IsGrid(g)
    ensures LastInColumns(g, c1, p1, Width(g), 0) && LastInColumns(g, c2, p2, Width(g), 0)
  {
    p1, p2 := (0, 0), (0, 0);
    for x := 0 to Width(g)
      invariant LastInColumns(g, c1, p1, x, 0) && LastInColumns(g, c2, p2, x, 0)
    {
      for y := 0 to Height(g)
        invariant LastInColumns(g, c1, p1, x, y) && LastInColumns(g, c2, p2, x, y)
      {
        if g[y][x] == c1 {
          p1 := (x, y);
        }
        if g[y][x] == c2 {
          p2 := (x, y);
        }
      }
      assert forall q :: InBounds(g, q) && ColumnsVisited(q, x, Height(g)) <==> InBounds(g, q) && ColumnsVisited(q, x + 1, 0);
    }
  }

  /** The start scan of the guard and robot solvers: the last cell holding
      c, rows outermost; (0, 0) when absent. */
  method ScanRows(g: Grid, c: char) returns (p: Pos)
    requires IsGrid(g)
    ensures LastInRows(g, c, p, 0, Height(g))
  {
    p := (0, 0);
    for y := 0 to Height(g)
      invariant LastInRows(g, c, p, 0, y)
    {
      for x := 0 to Width(g)
        invariant LastInRows(g, c, p, x, y)
      {
        if g[y][x] == c {
          p := (x, y);
        }
      }
      assert forall q :: InBounds(g, q) && RowsVisited(q, Width(g), y) <==> InBounds(g, q) && RowsVisited(q, 0, y + 1);
    }
  }

  // Deterministic runs of a step function that may stop.

  /** The state after k steps of f from s, or None once f has stopped. */
  function Orbit<S>(f: S -> Option<S>, s: S, k: nat): Option<S>
  {
    if k == 0 then Some(s) else if Orbit(f, s, k - 1).None? then None else f(Orbit(f, s, k - 1).value)
  }

  /** The run is still going after k steps and step k + 1 stops it. */
  ghost predicate StopsAt<S>(f: S -> Option<S>, s: S, k: nat)
  {
    Orbit(f, s, k).Some? && f(Orbit(f, s, k).value).None?
  }

  ghost predicate Stops<S>(f: S -> Option<S>, s: S)
  {
    exists k: nat :: StopsAt(f, s, k)
  }

  /** Some state of the run recurs. */
  ghost predicate Repeats<S>(f: S -> Option<S>, s: S)
  {
    exists i: nat, j: nat :: i < j && Orbit(f, s, i).Some? && Orbit(f, s, i) == Orbit(f, s, j)
  }

  /** Once stopped, a run stays stopped. */
  lemma {:induction false} StaysStopped<S>(f: S -> Option<S>, s: S, k: nat, m: nat)
    requires Orbit(f, s, k).None?
    ensures Orbit(f, s, k + m).None?
  {
    if m > 0 {
      StaysStopped(f, s, k, m - 1);
    }
  }

  /** Equal states have equal futures. */
  lemma {:induction false} Periodic<S>(f: S -> Option<S>, s: S, i: nat, j: nat, m: nat)
    requires Orbit(f, s, i) == Orbit(f, s, j)
    ensures Orbit(f, s, i + m) == Orbit(f, s, j + m)
  {
    if m > 0 {
      Periodic(f, s, i, j, m - 1);
    }
  }

  /** A run that revisits a state never stops: repeating and stopping
      exclude each other. */
  lemma RepeatsNeverStops<S>(f: S -> Option<S>, s: S)
    ensures Repeats(f, s) ==> !Stops(f, s)
  {
    if Repeats(f, s) && Stops(f, s) {
      var i: nat, j: nat :| i < j && Orbit(f, s, i).Some? && Orbit(f, s, i) == Orbit(f, s, j);
      var k: nat :| StopsAt(f, s, k);
      if j > k {
        StaysStopped(f, s, k + 1, j - k - 1);
      } else {
        Periodic(f, s, i, j, k - i);
        StaysStopped(f, s, k + 1, j - i - 1);
      }
    }
  }

  /** Step functions that agree everywhere give the same run. */
  lemma {:induction false} SameOrbit<S>(f1: S -> Option<S>, f2: S -> Option<S>, s: S, k: nat)
    requires forall t :: f1(t) == f2(t)
    ensures Orbit(f1, s, k) == Orbit(f2, s, k)
  {
    if k > 0 {
      SameOrbit(f1, f2, s, k - 1);
    }
  }

  // Counting with a row scan.

  /** The members of S that a row scan standing at (x, y) has passed. */
  function RowScanned(S: set<Pos>, x: int, y: int): set<Pos>
  {
    set p | p in S && RowsVisited(p, x, y)
  }

  /** Passing (x, y) adds it to the scanned part when it is in S. */
  lemma RowScanNext(S: set<Pos>, x: int, y: int)
    ensures (x, y) !in S ==> RowScanned(S, x + 1, y) == RowScanned(S, x, y)
    ensures (x, y) in S ==> RowScanned(S, x + 1, y) == RowScanned(S, x, y) + {(x, y)}
    ensures |RowScanned(S, x + 1, y)| == |RowScanned(S, x, y)| + if (x, y) in S then 1 else 0
  {
    if (x, y) in S {
      assert RowScanned(S, x + 1, y) == RowScanned(S, x, y) + {(x, y)};
    } else {
      assert RowScanned(S, x + 1, y) == RowScanned(S, x, y);
    }
  }

  /** The end of a row of width w is the start of the next one. */
  lemma RowScanWrap(S: set<Pos>, w: int, y: int)
    requires forall p :: p in S ==> 0 <= p.0 < w
    ensures RowScanned(S, w, y) == RowScanned(S, 0, y + 1)
  {
  }

  /** A scan of rows 0 to h - 1 passes all of S. */
  lemma RowScanAll(S: set<Pos>, h: int)
    requires forall p :: p in S ==> 0 <= p.0 && 0 <= p.1 < h
    ensures RowScanned(S, 0, 0) == {} && RowScanned(S, 0, h) == S
  {
    assert forall p :: p in RowScanned(S, 0, h) <==> p in S;
  }
  // Counting with a column scan.

  /** The members of S that a column scan standing at (x, y) has passed. */
  function ColumnScanned(S: set<Pos>, x: int, y: int): set<Pos>
  {
    set p | p in S && ColumnsVisited(p, x, y)
  }

  /** Passing (x, y) adds it to the scanned part when it is in S. */
  lemma ColumnScanNext(S: set<Pos>, x: int, y: int)
    ensures |ColumnScanned(S, x, y + 1)| == |ColumnScanned(S, x, y)| + if (x, y) in S then 1 else 0
  {
    if (x, y) in S {
      assert ColumnScanned(S, x, y + 1) == ColumnScanned(S, x, y) + {(x, y)};
    } else {
      assert ColumnScanned(S, x, y + 1) == ColumnScanned(S, x, y);
    }
  }

  /** The end of a column of height h is the start of the next one. */
  lemma ColumnScanWrap(S: set<Pos>, h: int, x: int)
    requires forall p :: p in S ==> 0 <= p.1 < h
    ensures ColumnScanned(S, x, h) == ColumnScanned(S, x + 1, 0)
  {
  }

  /** A scan of columns 0 to w - 1 passes all of S. */
  lemma ColumnScanAll(S: set<Pos>, w: int)
    requires forall p :: p in S ==> 0 <= p.1 && 0 <= p.0 < w
    ensures ColumnScanned(S, 0, 0) == {} && ColumnScanned(S, w, 0) == S
  {
    assert forall p :: p in ColumnScanned(S, w, 0) <==> p in S;
  }
}
