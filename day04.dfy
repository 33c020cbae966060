/** Day 4: a word search. Part 1 counts every start cell and direction,
    among the eight king moves, along which the four cells are in the grid
    and read X, M, A, S. Part 2 counts the cells that centre an "X-MAS":
    an `A` whose two diagonals each read M…S in one direction or the
    other. */
module Day04 {
  import opened Common

  /** `DIRS`: (dy, dx) pairs, the row offset first. */
  const Dirs: seq<(int, int)> := [(1, 0), (1, 1), (0, 1), (-1, 1), (-1, 0), (-1, -1), (0, -1), (1, -1)]

  /** The search tries the eight king moves, each once. */
  lemma KingMoves()
    ensures |Dirs| == 8
    ensures forall i, j :: 0 <= i < j < 8 ==> Dirs[i] != Dirs[j]
    ensures forall dy, dx :: (dy, dx) in Dirs <==> -1 <= dy <= 1 && -1 <= dx <= 1 && (dy, dx) != (0, 0)
  {
  }

  /** The cell c steps from p in direction k: the row moves by dy·c and the
      column by dx·c. */
  function Along(p: Pos, k: nat, c: int): Pos
    requires k < 8
  {
    (p.0 + Dirs[k].1 * c, p.1 + Dirs[k].0 * c)
  }

  /** Letter c of XMAS lies c steps from p in direction k. */
  predicate Spelled(g: Grid, p: Pos, k: nat, c: nat)
    requires IsGrid(g) && k < 8 && c < 4
  {
    InBounds(g, Along(p, k, c)) && At(g, Along(p, k, c)) == "XMAS"[c]
  }

  /** XMAS reads from p in direction k, every letter inside the grid. */
  predicate Xmas(g: Grid, p: Pos, k: nat)
    requires IsGrid(g) && k < 8
  {
    forall c :: 0 <= c < 4 ==> Spelled(g, p, k, c)
  }

  /** Every (start cell, direction) pair the search tries. */
  function Starts(g: Grid): (r: set<(Pos, nat)>)
    requires IsGrid(g)
    ensures forall h :: h in r <==> InBounds(g, h.0) && h.1 < 8
  {
    set p, k | p in Cells(g) && 0 <= k < 8 :: (p, k)
  }

  /** The (start cell, direction) pairs that read XMAS. */
  function Hits(g: Grid): set<(Pos, nat)>
    requires IsGrid(g)
  {
    set h | h in Starts(g) && Xmas(g, h.0, h.1)
  }

  /** The inner `for c in 0..4` loop: leave at the first step off the grid
      or the first wrong letter. */
  method Spells(g: Grid, i: int, j: int, k: nat) returns (found: bool)
    requires IsGrid(g) && k < 8
    ensures found == Xmas(g, (j, i), k)
  {
    found := true;
    for c := 0 to 4
      invariant forall c' :: 0 <= c' < c ==> Spelled(g, (j, i), k, c')
    {
      var y := i + Dirs[k].0 * c;
      var x := j + Dirs[k].1 * c;
      if x < 0 || x >= Width(g) || y < 0 || y >= Height(g) {
        found := false;
        assert !Spelled(g, (j, i), k, c);
        break;
      }
      var ch := g[y][x];
      if ch != "XMAS"[c] {
        found := false;
        assert !Spelled(g, (j, i), k, c);
        break;
      }
    }
  }

  /** The part-1 loops have visited (start, direction) pair h when they
      stand at cell (x, y) and direction k: rows first, then columns, then
      directions. */
  predicate Passed(h: (Pos, nat), x: int, y: int, k: int)
  {
    h.0.1 < y || (h.0.1 == y && (h.0.0 < x || (h.0.0 == x && h.1 < k)))
  }

  /** The members of S the part-1 loops have passed. */
  function Scanned(S: set<(Pos, nat)>, x: int, y: int, k: int): set<(Pos, nat)>
  {
    set h | h in S && Passed(h, x, y, k)
  }

  function HitsScanned(g: Grid, x: int, y: int, k: int): set<(Pos, nat)>
    requires IsGrid(g)
  {
    Scanned(Hits(g), x, y, k)
  }

  /** Passing direction k at (x, y) adds that pair when it is in S. */
  lemma ScanNext(S: set<(Pos, nat)>, x: int, y: int, k: int)
    ensures |Scanned(S, x, y, k + 1)| == |Scanned(S, x, y, k)| + if ((x, y), k) in S then 1 else 0
  {
    if ((x, y), k) in S {
      assert Scanned(S, x, y, k + 1) == Scanned(S, x, y, k) + {((x, y), k)};
    } else {
      assert Scanned(S, x, y, k + 1) == Scanned(S, x, y, k);
    }
  }

  /** Trying direction k at (x, y) adds one hit exactly when XMAS reads
      there. */
  lemma HitNext(g: Grid, x: int, y: int, k: nat)
    requires IsGrid(g) && InBounds(g, (x, y)) && k < 8
    ensures |HitsScanned(g, x, y, k + 1)| == |HitsScanned(g, x, y, k)| + if Xmas(g, (x, y), k) then 1 else 0
  {
    ScanNext(Hits(g), x, y, k);
  }

  /** After the eighth direction the scan moves to the next cell. */
  lemma HitWrapCell(g: Grid, x: int, y: int)
    requires IsGrid(g)
    ensures HitsScanned(g, x, y, 8) == HitsScanned(g, x + 1, y, 0)
  {
  }

  /** After the last column the scan moves to the next row. */
  lemma HitWrapRow(g: Grid, y: int)
    requires IsGrid(g)
    ensures HitsScanned(g, Width(g), y, 0) == HitsScanned(g, 0, y + 1, 0)
  {
  }

  /** The scan starts with nothing and ends with every hit. */
  lemma HitsAll(g: Grid)
    requires IsGrid(g)
    ensures HitsScanned(g, 0, 0, 0) == {} && HitsScanned(g, 0, Height(g), 0) == Hits(g)
  {
    assert forall h :: h in HitsScanned(g, 0, Height(g), 0) <==> h in Hits(g);
  }

  /** `part1`: for each row, column and direction, one more when XMAS
      reads there. */
  method Part1(g: Grid) returns (answer: nat)
    requires IsGrid(g)
    ensures answer == |Hits(g)|
  {
    answer := 0;
    HitsAll(g);
    for i := 0 to Height(g)
      invariant answer == |HitsScanned(g, 0, i, 0)|
    {
      for j := 0 to Width(g)
        invariant answer == |HitsScanned(g, j, i, 0)|
      {
        for k := 0 to 8
          invariant answer == |HitsScanned(g, j, i, k)|
        {
          var found := Spells(g, i, j, k);
          HitNext(g, j, i, k);
          if found {
            answer := answer + 1;
          }
        }
        HitWrapCell(g, j, i);
      }
      HitWrapRow(g, i);
    }
  }

  /** The test of `part2` at an interior cell p: an `A`, the top-left and
      bottom-right corners M and S in either order, and likewise the
      top-right and bottom-left corners. */
  predicate Cross(g: Grid, p: Pos)
    requires IsGrid(g)
  {
    && 1 <= p.0 < Width(g) - 1 && 1 <= p.1 < Height(g) - 1
    && var (x, y) := p;
    && g[y][x] == 'A'
    && ((g[y - 1][x - 1] == 'M' && g[y + 1][x + 1] == 'S') || (g[y - 1][x - 1] == 'S' && g[y + 1][x + 1] == 'M'))
    && ((g[y - 1][x + 1] == 'M' && g[y + 1][x - 1] == 'S') || (g[y - 1][x + 1] == 'S' && g[y + 1][x - 1] == 'M'))
  }

  /** MAS reads through p from p - d to p + d, all three cells in the grid. */
  predicate Mas(g: Grid, p: Pos, d: (int, int))
    requires IsGrid(g)
  {
    var before, after := (p.0 - d.0, p.1 - d.1), (p.0 + d.0, p.1 + d.1);
    && InBounds(g, before) && InBounds(g, p) && InBounds(g, after)
    && At(g, before) == 'M' && At(g, p) == 'A' && At(g, after) == 'S'
  }

  /** An X-MAS: two MAS words crossing at their A, one on each diagonal,
      each read in either direction. */
  predicate XShape(g: Grid, p: Pos)
    requires IsGrid(g)
  {
    && (Mas(g, p, (1, 1)) || Mas(g, p, (-1, -1)))
    && (Mas(g, p, (1, -1)) || Mas(g, p, (-1, 1)))
  }

  /** The corner test of `part2` finds exactly the X-MAS shapes: the
      interior bound is what keeps both diagonals in the grid. */
  lemma CrossIsXShape(g: Grid, p: Pos)
    requires IsGrid(g)
    ensures Cross(g, p) <==> XShape(g, p)
  {
  }

  /** The cells `part2` counts. */
  function Crosses(g: Grid): set<Pos>
    requires IsGrid(g)
  {
    set p | p in Cells(g) && Cross(g, p)
  }

  /** One interior row of `part2`: columns 1 to width - 2, one more for
      every cell that passes the corner test. */
  method ScanRow(g: Grid, i: int, answer0: nat) returns (answer: nat)
    requires IsGrid(g) && 1 <= i < Height(g) - 1 && Width(g) >= 1
    requires answer0 == |RowScanned(Crosses(g), 0, i)|
    ensures answer == |RowScanned(Crosses(g), 0, i + 1)|
  {
    ghost var S := Crosses(g);
    answer := answer0;
    assert RowScanned(S, 1, i) == RowScanned(S, 0, i);
    var j := 1;
    while j < Width(g) - 1
      invariant 1 <= j && (j <= Width(g) - 1 || j == 1)
      invariant answer == |RowScanned(S, j, i)|
    {
      var c := g[i][j];
      var cTopLeft := g[i - 1][j - 1];
      var cTopRight := g[i - 1][j + 1];
      var cBottomRight := g[i + 1][j + 1];
      var cBottomLeft := g[i + 1][j - 1];
      var found := c == 'A' && ((cTopLeft == 'M' && cBottomRight == 'S') || (cTopLeft == 'S' && cBottomRight == 'M'))
                    && ((cTopRight == 'M' && cBottomLeft == 'S') || (cTopRight == 'S' && cBottomLeft == 'M'));
      assert found <==> (j, i) in S;
      RowScanNext(S, j, i);
      if found {
        answer := answer + 1;
      }
      j := j + 1;
    }
    RowScanWrap(S, j, i);
  }

  /** `part2`: rows 1 to height - 2. `width - 1` is taken for every
      interior row, so the first row must not be empty once there is an
      interior row. */
  method Part2(g: Grid) returns (answer: nat)
    requires IsGrid(g) && (Height(g) >= 3 ==> Width(g) >= 1)
    ensures answer == |Crosses(g)|
  {
    ghost var S := Crosses(g);
    answer := 0;
    assert RowScanned(S, 0, 1) == {};
    var i := 1;
    while i < Height(g) - 1
      invariant 1 <= i && (i <= Height(g) - 1 || i == 1)
      invariant answer == |RowScanned(S, 0, i)|
    {
      answer := ScanRow(g, i, answer);
      i := i + 1;
    }
    RowScanAll(S, i);
  }
}
