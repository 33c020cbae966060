/** Day 8: antennas on a city map and the antinodes that pairs of
    same-frequency antennas create. Both parts pair every antenna with
    every other cell of its frequency in four nested loops, set cells of a
    `width` × `height` table of flags indexed `[x][y]`, and count the set
    flags. Part 1 mirrors each antenna through its partner; part 2 walks
    from the antenna in steps of the offset to its partner until it
    leaves the map. */
module Day08 {
  import opened Common

  /** Where a pair puts antinodes: `part1` mirrors, `part2` marks a line. */
  datatype Rule = Mirror | Line

  /** A cell holding an antenna: any symbol other than `.`. */
  predicate Antenna(g: Grid, p: Pos)
    requires IsGrid(g)
  {
    InBounds(g, p) && At(g, p) != '.'
  }

  /** The ordered pairs the loops act on: an antenna a and a different
      cell b with the same symbol. */
  predicate Paired(g: Grid, a: Pos, b: Pos)
    requires IsGrid(g)
  {
    Antenna(g, a) && InBounds(g, b) && a != b && At(g, b) == At(g, a)
  }

  /** (dx, dy) = b - a. */
  function Offset(a: Pos, b: Pos): Pos
  {
    (b.0 - a.0, b.1 - a.1)
  }

  /** p + k·d. */
  function Along(p: Pos, d: Pos, k: int): Pos
  {
    (p.0 + k * d.0, p.1 + k * d.1)
  }

  /** p, if it lies on the map: what one bounds-checked write marks. */
  function Within(g: Grid, p: Pos): (r: set<Pos>)
    requires IsGrid(g)
    ensures r <= Cells(g)
  {
    if InBounds(g, p) then {p} else {}
  }

  /** The walk from p in steps of d stays on the map up to step k. */
  ghost predicate Lit(g: Grid, p: Pos, d: Pos, k: nat)
    requires IsGrid(g)
  {
    forall j :: 0 <= j <= k ==> InBounds(g, Along(p, d, j))
  }

  /** The cells a `while` walk from p in steps of d marks: p + k·d for
      every k before the walk first leaves the map. */
  ghost function Ray(g: Grid, p: Pos, d: Pos): (r: set<Pos>)
    requires IsGrid(g)
    ensures r <= Cells(g)
  {
    set q | q in Cells(g) && exists k: nat :: q == Along(p, d, k) && Lit(g, p, d, k)
  }

  /** The first k points of the walk. */
  function Trail(p: Pos, d: Pos, k: nat): set<Pos>
  {
    set j | 0 <= j < k :: Along(p, d, j)
  }

  /** The cells one ordered pair (a, b) marks under a rule; nothing when
      the loops skip the pair. */
  ghost function Marks(g: Grid, rule: Rule, a: Pos, b: Pos): (r: set<Pos>)
    requires IsGrid(g)
    ensures r <= Cells(g)
  {
    if !Paired(g, a, b) then {}
    else
      var d := Offset(a, b);
      match rule
      case Mirror => Within(g, (b.0 + d.0, b.1 + d.1)) + Within(g, (a.0 - d.0, a.1 - d.1))
      case Line => Ray(g, a, d)
  }

  /** The antinodes of the map under a rule: every cell some pair marks. */
  ghost function AllMarks(g: Grid, rule: Rule): (r: set<Pos>)
    requires IsGrid(g)
  {
    set q | q in Cells(g) && exists a, b :: q in Marks(g, rule, a, b)
  }

  /** (x, y) is a position a row scan of the map can stand at, up to and
      including its end (0, height). */
  predicate Scanning(g: Grid, x: int, y: int)
    requires IsGrid(g)
  {
    0 <= x <= Width(g) && 0 <= y <= Height(g) && (y == Height(g) ==> x == 0)
  }

  /** What the two inner loops for antenna a have marked on reaching
      (x, y). */
  ghost function Partners(g: Grid, rule: Rule, a: Pos, x: int, y: int): (r: set<Pos>)
    requires IsGrid(g) && Scanning(g, x, y)
    ensures r <= Cells(g)
    decreases y, x
  {
    if x > 0 then Partners(g, rule, a, x - 1, y) + Marks(g, rule, a, (x - 1, y))
    else if y > 0 then Partners(g, rule, a, Width(g), y - 1)
    else {}
  }

  /** What all four loops have marked when the outer two reach (x, y). */
  ghost function Scanned(g: Grid, rule: Rule, x: int, y: int): (r: set<Pos>)
    requires IsGrid(g) && Scanning(g, x, y)
    ensures r <= Cells(g)
    decreases y, x
  {
    if x > 0 then Scanned(g, rule, x - 1, y) + Partners(g, rule, (x - 1, y), 0, Height(g))
    else if y > 0 then Scanned(g, rule, Width(g), y - 1)
    else {}
  }

  /** The inner loops mark exactly what the pairs (a, b) with b already
      scanned mark. */
  lemma {:induction false} PartnersHas(g: Grid, rule: Rule, a: Pos, x: int, y: int, q: Pos)
    requires IsGrid(g) && Scanning(g, x, y)
    ensures q in Partners(g, rule, a, x, y) <==>
              exists b :: InBounds(g, b) && RowsVisited(b, x, y) && q in Marks(g, rule, a, b)
    decreases y, x
  {
    if x > 0 {
      PartnersHas(g, rule, a, x - 1, y, q);
      assert InBounds(g, (x - 1, y));
    } else if y > 0 {
      PartnersHas(g, rule, a, Width(g), y - 1, q);
    }
  }

  /** The outer loops mark exactly what the antennas already scanned
      mark with their partners. */
  lemma {:induction false} ScannedHas(g: Grid, rule: Rule, x: int, y: int, q: Pos)
    requires IsGrid(g) && Scanning(g, x, y)
    ensures q in Scanned(g, rule, x, y) <==>
              exists a :: InBounds(g, a) && RowsVisited(a, x, y) && q in Partners(g, rule, a, 0, Height(g))
    decreases y, x
  {
    if x > 0 {
      ScannedHas(g, rule, x - 1, y, q);
      assert InBounds(g, (x - 1, y));
    } else if y > 0 {
      ScannedHas(g, rule, Width(g), y - 1, q);
    }
  }

  /** A full scan marks every antinode and nothing else. */
  lemma ScanMarksAll(g: Grid, rule: Rule)
    requires IsGrid(g)
    ensures Scanned(g, rule, 0, Height(g)) == AllMarks(g, rule)
  {
    forall q | q in AllMarks(g, rule)
      ensures q in Scanned(g, rule, 0, Height(g))
    {
      var a, b :| q in Marks(g, rule, a, b);
      PartnersHas(g, rule, a, 0, Height(g), q);
      ScannedHas(g, rule, 0, Height(g), q);
    }
    forall q | q in Scanned(g, rule, 0, Height(g))
      ensures q in AllMarks(g, rule)
    {
      ScannedHas(g, rule, 0, Height(g), q);
      var a :| InBounds(g, a) && q in Partners(g, rule, a, 0, Height(g));
      PartnersHas(g, rule, a, 0, Height(g), q);
    }
  }

  /** A cell without an antenna has no partners. */
  lemma NoPartners(g: Grid, rule: Rule, a: Pos)
    requires IsGrid(g) && InBounds(g, a) && At(g, a) == '.'
    ensures Partners(g, rule, a, 0, Height(g)) == {}
  {
    forall q | q in Partners(g, rule, a, 0, Height(g))
      ensures false
    {
      PartnersHas(g, rule, a, 0, Height(g), q);
    }
  }

  // The walks of part 2.

  /** A walk from p on the map that stops at step k has marked exactly
      its first k points. */
  lemma RayEnds(g: Grid, p: Pos, d: Pos, k: nat)
    requires IsGrid(g)
    requires forall j :: 0 <= j < k ==> InBounds(g, Along(p, d, j))
    requires !InBounds(g, Along(p, d, k))
    ensures Ray(g, p, d) == Trail(p, d, k)
  {
    forall q | q in Trail(p, d, k)
      ensures q in Ray(g, p, d)
    {
      var j :| 0 <= j < k && q == Along(p, d, j);
      assert Lit(g, p, d, j);
    }
  }

  /** A walk that starts off the map marks nothing. */
  lemma RayFromOutside(g: Grid, p: Pos, d: Pos)
    requires IsGrid(g) && !InBounds(g, p)
    ensures Ray(g, p, d) == {}
  {
    forall k: nat
      ensures !Lit(g, p, d, k)
    {
      assert Along(p, d, 0) == p;
    }
  }

  /** 0 <= j <= k puts j·c between 0 and k·c. */
  lemma Between(j: int, k: int, c: int)
    requires 0 <= j <= k
    ensures c >= 0 ==> 0 <= j * c <= k * c
    ensures c < 0 ==> k * c <= j * c <= 0
  {
    assert k * c - j * c == (k - j) * c;
  }

  /** The map is convex: a walk from a cell on the map to a point on the
      map stays on the map in between. */
  lemma RayCovers(g: Grid, p: Pos, d: Pos, k: nat)
    requires IsGrid(g) && InBounds(g, p) && InBounds(g, Along(p, d, k))
    ensures Lit(g, p, d, k)
  {
    forall j | 0 <= j <= k
      ensures InBounds(g, Along(p, d, j))
    {
      Between(j, k, d.0);
      Between(j, k, d.1);
    }
  }

  /** A walk from a cell on the map marks every point p + k·d (k >= 0)
      that lies on the map. */
  lemma RayFromInside(g: Grid, p: Pos, d: Pos, q: Pos)
    requires IsGrid(g) && InBounds(g, p)
    ensures q in Ray(g, p, d) <==> InBounds(g, q) && exists k: nat :: q == Along(p, d, k)
  {
    if InBounds(g, q) && exists k: nat :: q == Along(p, d, k) {
      var k: nat :| q == Along(p, d, k);
      RayCovers(g, p, d, k);
    }
  }

  // What the antinodes are.

  /** Part 1's antinodes are the cells on the map that lie one offset
      beyond an antenna, away from another antenna of its frequency. Each
      pair marks both ends; the far end of (a, b) is the near end of
      (b, a). */
  lemma MirrorAntinodes(g: Grid, q: Pos)
    requires IsGrid(g)
    ensures q in AllMarks(g, Mirror) <==> InBounds(g, q) && exists a, b :: Paired(g, a, b) && q == Beyond(a, b)
  {
    if q in AllMarks(g, Mirror) {
      MirrorFound(g, q);
    }
    if InBounds(g, q) && exists a, b :: Paired(g, a, b) && q == Beyond(a, b) {
      var a, b :| Paired(g, a, b) && q == Beyond(a, b);
      MirrorMade(g, a, b);
    }
  }

  lemma MirrorMade(g: Grid, a: Pos, b: Pos)
    requires IsGrid(g) && Paired(g, a, b) && InBounds(g, Beyond(a, b))
    ensures Beyond(a, b) in AllMarks(g, Mirror)
  {
    var d := Offset(a, b);
    assert Beyond(a, b) == (b.0 + d.0, b.1 + d.1);
    assert Beyond(a, b) in Marks(g, Mirror, a, b);
  }

  /** 2b - a: one offset beyond b, away from a. */
  function Beyond(a: Pos, b: Pos): Pos
  {
    (2 * b.0 - a.0, 2 * b.1 - a.1)
  }

  lemma MirrorFound(g: Grid, q: Pos)
    requires IsGrid(g) && q in AllMarks(g, Mirror)
    ensures exists a, b :: Paired(g, a, b) && q == Beyond(a, b)
  {
    var a, b :| q in Marks(g, Mirror, a, b);
    if q != Beyond(a, b) {
      assert Paired(g, b, a) && q == Beyond(b, a);
    }
  }

  /** Part 2's antinodes are the cells on the map of the form a + k·(b - a),
      k >= 0, for a pair of same-frequency antennas a and b. */
  lemma LineAntinodes(g: Grid, q: Pos)
    requires IsGrid(g)
    ensures q in AllMarks(g, Line) <==>
              InBounds(g, q) && exists a, b, k: nat :: Paired(g, a, b) && q == Along(a, Offset(a, b), k)
  {
    if q in AllMarks(g, Line) {
      var a, b :| q in Marks(g, Line, a, b);
      RayFromInside(g, a, Offset(a, b), q);
    }
    if InBounds(g, q) && exists a, b, k: nat :: Paired(g, a, b) && q == Along(a, Offset(a, b), k) {
      var a, b, k: nat :| Paired(g, a, b) && q == Along(a, Offset(a, b), k);
      RayFromInside(g, a, Offset(a, b), q);
      assert q in Marks(g, Line, a, b);
    }
  }

  /** In part 2 every antenna that shares its frequency is an antinode. */
  lemma AntennasResonate(g: Grid, a: Pos, b: Pos)
    requires IsGrid(g) && Paired(g, a, b)
    ensures a in AllMarks(g, Line) && b in AllMarks(g, Line)
  {
    assert a == Along(a, Offset(a, b), 0);
    assert b == Along(a, Offset(a, b), 1);
    LineAntinodes(g, a);
    LineAntinodes(g, b);
  }

  // The table of flags.

  /** `antinodes` is `width` × `height`, indexed `[x][y]`. */
  predicate Fits(g: Grid, antinodes: array2<bool>)
    requires IsGrid(g)
  {
    antinodes.Length0 == Width(g) && antinodes.Length1 == Height(g)
  }

  /** The cells whose flag is set. */
  ghost function MarkedSet(g: Grid, antinodes: array2<bool>): (r: set<Pos>)
    requires IsGrid(g) && Fits(g, antinodes)
    reads antinodes
    ensures r <= Cells(g)
  {
    set p | p in Cells(g) && antinodes[p.0, p.1]
  }

  /** `antinodes[x][y] = true`. */
  method Mark(g: Grid, antinodes: array2<bool>, p: Pos)
    requires IsGrid(g) && Fits(g, antinodes) && InBounds(g, p)
    modifies antinodes
    ensures MarkedSet(g, antinodes) == old(MarkedSet(g, antinodes)) + {p}
  {
    antinodes[p.0, p.1] := true;
  }

  /** One more step of a walk adds its current point to the trail. */
  lemma TrailNext(p: Pos, d: Pos, k: nat)
    ensures Trail(p, d, k + 1) == Trail(p, d, k) + {Along(p, d, k)}
    ensures Along(p, d, k + 1) == (Along(p, d, k).0 + d.0, Along(p, d, k).1 + d.1)
  {
    assert Along(p, d, k) in Trail(p, d, k + 1);
  }

  /** How far v can still move in steps of dv before it leaves [0, n). */
  function Runway(v: int, dv: int, n: int): int
  {
    if dv > 0 then n - v else if dv < 0 then v + 1 else 0
  }

  /** One `while` of `part2`: mark the cell and step by d until the walk
      leaves the map; the walk ends at the first point off the map. */
  method Walk(g: Grid, antinodes: array2<bool>, p: Pos, d: Pos) returns (end: Pos)
    requires IsGrid(g) && Fits(g, antinodes) && d != (0, 0)
    modifies antinodes
    ensures MarkedSet(g, antinodes) == old(MarkedSet(g, antinodes)) + Ray(g, p, d)
    ensures !InBounds(g, end)
  {
    var x, y := p.0, p.1;
    ghost var k: nat := 0;
    while 0 <= x < Width(g) && 0 <= y < Height(g)
      invariant (x, y) == Along(p, d, k)
      invariant forall j :: 0 <= j < k ==> InBounds(g, Along(p, d, j))
      invariant MarkedSet(g, antinodes) == old(MarkedSet(g, antinodes)) + Trail(p, d, k)
      decreases Runway(x, d.0, Width(g)) + Runway(y, d.1, Height(g))
    {
      Mark(g, antinodes, (x, y));
      TrailNext(p, d, k);
      x, y := x + d.0, y + d.1;
      k := k + 1;
    }
    RayEnds(g, p, d, k);
    end := (x, y);
  }

  /** The body of the innermost loop for a pair of same-frequency cells. */
  method MarkPair(g: Grid, antinodes: array2<bool>, rule: Rule, a: Pos, b: Pos)
    requires IsGrid(g) && Fits(g, antinodes) && Paired(g, a, b)
    modifies antinodes
    ensures MarkedSet(g, antinodes) == old(MarkedSet(g, antinodes)) + Marks(g, rule, a, b)
  {
    var dx, dy := b.0 - a.0, b.1 - a.1;
    match rule
    case Mirror =>
      if 0 <= b.0 + dx < Width(g) && 0 <= b.1 + dy < Height(g) {
        Mark(g, antinodes, (b.0 + dx, b.1 + dy));
      }
      if 0 <= a.0 - dx < Width(g) && 0 <= a.1 - dy < Height(g) {
        Mark(g, antinodes, (a.0 - dx, a.1 - dy));
      }
    case Line =>
      var end := Walk(g, antinodes, a, (dx, dy));
      var back := Walk(g, antinodes, end, (-dx, -dy));
      RayFromOutside(g, end, (-dx, -dy));
  }

  /** The two inner loops: pair antenna a with every other cell of its
      frequency. */
  method PairUp(g: Grid, antinodes: array2<bool>, rule: Rule, a: Pos)
    requires IsGrid(g) && Fits(g, antinodes) && Antenna(g, a)
    modifies antinodes
    ensures MarkedSet(g, antinodes) == old(MarkedSet(g, antinodes)) + Partners(g, rule, a, 0, Height(g))
  {
    for y2 := 0 to Height(g)
      invariant MarkedSet(g, antinodes) == old(MarkedSet(g, antinodes)) + Partners(g, rule, a, 0, y2)
    {
      for x2 := 0 to Width(g)
        invariant MarkedSet(g, antinodes) == old(MarkedSet(g, antinodes)) + Partners(g, rule, a, x2, y2)
      {
        if a == (x2, y2) {
          continue;
        }
        if g[y2][x2] == At(g, a) {
          MarkPair(g, antinodes, rule, a, (x2, y2));
        }
      }
    }
  }

  /** The four nested loops of a part, on a fresh table of flags. */
  method MarkAll(g: Grid, rule: Rule) returns (antinodes: array2<bool>)
    requires IsGrid(g)
    ensures fresh(antinodes) && Fits(g, antinodes)
    ensures MarkedSet(g, antinodes) == AllMarks(g, rule)
  {
    antinodes := new bool[Width(g), Height(g)]((x, y) => false);
    assert MarkedSet(g, antinodes) == {};
    for y1 := 0 to Height(g)
      invariant Fits(g, antinodes)
      invariant MarkedSet(g, antinodes) == Scanned(g, rule, 0, y1)
    {
      for x1 := 0 to Width(g)
        invariant Fits(g, antinodes)
        invariant MarkedSet(g, antinodes) == Scanned(g, rule, x1, y1)
      {
        if g[y1][x1] == '.' {
          NoPartners(g, rule, (x1, y1));
          continue;
        }
        PairUp(g, antinodes, rule, (x1, y1));
      }
    }
    ScanMarksAll(g, rule);
  }

  /** `antinodes.iter().flatten().filter(..).count()`: the rows of the
      table are the columns of the map. */
  method CountMarked(g: Grid, antinodes: array2<bool>) returns (answer: nat)
    requires IsGrid(g) && Fits(g, antinodes)
    ensures answer == |MarkedSet(g, antinodes)|
  {
    ghost var S := MarkedSet(g, antinodes);
    answer := 0;
    for x := 0 to Width(g)
      invariant answer == |ColumnScanned(S, x, 0)|
    {
      for y := 0 to Height(g)
        invariant answer == |ColumnScanned(S, x, y)|
      {
        ColumnScanNext(S, x, y);
        if antinodes[x, y] {
          answer := answer + 1;
        }
      }
      ColumnScanWrap(S, Height(g), x);
    }
    ColumnScanAll(S, Width(g));
  }

  /** `part1`: the number of cells that are antinodes by mirroring. */
  method Part1(g: Grid) returns (answer: nat)
    requires IsGrid(g)
    ensures answer == |AllMarks(g, Mirror)|
  {
    var antinodes := MarkAll(g, Mirror);
    answer := CountMarked(g, antinodes);
  }

  /** `part2`: the number of cells on some line of same-frequency
      antennas, in whole steps of the pair's offset. */
  method Part2(g: Grid) returns (answer: nat)
    requires IsGrid(g)
    ensures answer == |AllMarks(g, Line)|
  {
    var antinodes := MarkAll(g, Line);
    answer := CountMarked(g, antinodes);
  }
}
