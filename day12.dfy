/** Day 12, "Garden Groups": the map is cut into regions, the 4-connected
    groups of plots growing the same plant. Part 1 prices a region at
    area × perimeter, part 2 at area × number of sides, where the sides are
    counted through the region's corners. */
module Day12 {
  import opened Common

  // Regions.

  /** From p, the step in direction d stays on the map and reaches the same
      plant: the flood fill goes on through it, and no fence stands there. */
  predicate Link(g: Grid, p: Pos, d: nat)
    requires IsGrid(g)
  {
    && InBounds(g, p) && d < 4
    && InBounds(g, Step(p, d)) && At(g, Step(p, d)) == At(g, p)
  }

  /** S is shut under `Link`: no plot of S has a same-plant neighbour outside S. */
  ghost predicate Closed(g: Grid, S: set<Pos>)
    requires IsGrid(g)
  {
    forall p, d :: p in S && Link(g, p, d) ==> Step(p, d) in S
  }

  /** The region of s: the plots in every closed set that holds s, that is
      the least closed set around s. */
  ghost function Region(g: Grid, s: Pos): (r: set<Pos>)
    requires IsGrid(g)
    ensures r <= Cells(g)
  {
    set p | p in Cells(g) && forall S: set<Pos> {:trigger Closed(g, S)} :: s in S && Closed(g, S) ==> p in S
  }

  lemma RegionLeast(g: Grid, s: Pos, S: set<Pos>)
    requires IsGrid(g) && s in S && Closed(g, S)
    ensures Region(g, s) <= S
  {
  }

  lemma RegionHasStart(g: Grid, s: Pos)
    requires IsGrid(g) && InBounds(g, s)
    ensures s in Region(g, s)
  {
  }

  /** A region is closed: the flood fill cannot leave it. */
  lemma RegionClosed(g: Grid, s: Pos)
    requires IsGrid(g)
    ensures Closed(g, Region(g, s))
  {
    forall p, d | p in Region(g, s) && Link(g, p, d)
      ensures Step(p, d) in Region(g, s)
    {
      forall S: set<Pos> | s in S && Closed(g, S)
        ensures Step(p, d) in S
      {
        assert p in S;
      }
    }
  }

  /** Every plot of a region grows the plant of its start. */
  lemma RegionPlant(g: Grid, s: Pos)
    requires IsGrid(g) && InBounds(g, s)
    ensures forall q :: q in Region(g, s) ==> At(g, q) == At(g, s)
  {
    var S := set q | q in Cells(g) && At(g, q) == At(g, s);
    assert Closed(g, S);
    RegionLeast(g, s, S);
  }

  /** A step across a `Link` can be taken back. */
  lemma LinkBack(g: Grid, p: Pos, d: nat)
    requires IsGrid(g) && Link(g, p, d)
    ensures Link(g, Step(p, d), (d + 2) % 4) && Step(Step(p, d), (d + 2) % 4) == p
  {
  }

  /** Being in the same region is symmetric. */
  lemma RegionSymmetric(g: Grid, p: Pos, q: Pos)
    requires IsGrid(g) && InBounds(g, p) && q in Region(g, p)
    ensures p in Region(g, q)
  {
    var T := set r | r in Region(g, p) && p in Region(g, r);
    RegionHasStart(g, p);
    RegionClosed(g, p);
    forall r, d | r in T && Link(g, r, d)
      ensures Step(r, d) in T
    {
      var r' := Step(r, d);
      LinkBack(g, r, d);
      RegionClosed(g, r');
      assert r in Region(g, r');
      RegionClosed(g, r');
      RegionLeast(g, r, Region(g, r'));
    }
    RegionLeast(g, p, T);
  }

  /** Plots of one region have that same region. */
  lemma RegionShared(g: Grid, p: Pos, q: Pos)
    requires IsGrid(g) && InBounds(g, p) && q in Region(g, p)
    ensures Region(g, q) == Region(g, p)
  {
    RegionClosed(g, p);
    RegionLeast(g, q, Region(g, p));
    RegionSymmetric(g, p, q);
    RegionClosed(g, q);
    RegionLeast(g, p, Region(g, q));
  }

  /** A closed set either holds the whole region of s or none of it. */
  lemma RegionInOrOut(g: Grid, s: Pos, S: set<Pos>)
    requires IsGrid(g) && InBounds(g, s) && Closed(g, S)
    ensures s in S ==> Region(g, s) <= S
    ensures s !in S ==> forall r :: r in Region(g, s) ==> r !in S
  {
    if s !in S && exists r :: r in Region(g, s) && r in S {
      var r :| r in Region(g, s) && r in S;
      RegionSymmetric(g, s, r);
      RegionLeast(g, r, S);
    }
  }

  // What a plot is charged for.

  /** `Perimeter` counts the fence segments of part 1, `Sides` the corners
      of part 2 (a polygon has as many sides as corners). */
  datatype Measure = Perimeter | Sides

  /** The plot diagonally off p between direction d and the next one clockwise. */
  function Diagonal(p: Pos, d: nat): Pos
    requires d < 4
  {
    Step(Step(p, d), Clockwise(d))
  }

  /** An outer corner where both sides d and d + 1 are fenced, or an inner
      corner where both are open but the plot between them differs. */
  predicate Corner(g: Grid, p: Pos, d: nat)
    requires IsGrid(g) && InBounds(g, p) && d < 4
  {
    var side1 := !Link(g, p, d);
    var side2 := !Link(g, p, Clockwise(d));
    var diag := !(InBounds(g, Diagonal(p, d)) && At(g, Diagonal(p, d)) == At(g, p));
    (side1 && side2) || (!side1 && !side2 && diag)
  }

  predicate Marked(g: Grid, m: Measure, p: Pos, d: nat)
    requires IsGrid(g) && InBounds(g, p) && d < 4
  {
    match m
    case Perimeter => !Link(g, p, d)
    case Sides => Corner(g, p, d)
  }

  /** The directions below n in which plot p carries a mark (a fence
      segment or a corner). */
  ghost function CellMarks(g: Grid, m: Measure, p: Pos, n: nat): set<nat>
    requires IsGrid(g) && InBounds(g, p) && n <= 4
  {
    set d: nat | d < n && Marked(g, m, p, d)
  }

  /** The marks of all plots of S: for a region, its perimeter or its corners. */
  ghost function Marks(g: Grid, m: Measure, S: set<Pos>): set<(Pos, nat)>
    requires IsGrid(g)
  {
    set p, d | p in S && InBounds(g, p) && 0 <= d < 4 && Marked(g, m, p, d) :: (p, d)
  }

  /** The pairs of a with each member of Y. */
  ghost function Row<A, B>(a: A, Y: set<B>): (r: set<(A, B)>)
    ensures forall x :: x in r ==> x.0 == a
  {
    set b | b in Y :: (a, b)
  }

  lemma CellMarksNext(g: Grid, m: Measure, p: Pos, n: nat)
    requires IsGrid(g) && InBounds(g, p) && n < 4
    ensures |CellMarks(g, m, p, n + 1)| == |CellMarks(g, m, p, n)| + if Marked(g, m, p, n) then 1 else 0
  {
    var A, B := CellMarks(g, m, p, n), CellMarks(g, m, p, n + 1);
    assert forall d :: d in B <==> d in A || (d == n && Marked(g, m, p, n));
    GrowByOne(A, B, n, Marked(g, m, p, n));
  }

  /** B is A with x added when b holds, and A without x. */
  lemma GrowByOne(A: set<nat>, B: set<nat>, x: nat, b: bool)
    requires x !in A && forall d :: d in B <==> d in A || (d == x && b)
    ensures |B| == |A| + if b then 1 else 0
  {
    if b {
      assert B == A + {x};
    } else {
      assert B == A;
    }
  }

  /** Adding a new plot adds its own marks. */
  lemma MarksAdd(g: Grid, m: Measure, S: set<Pos>, p: Pos)
    requires IsGrid(g) && InBounds(g, p) && p !in S
    ensures |Marks(g, m, S + {p})| == |Marks(g, m, S)| + |CellMarks(g, m, p, 4)|
  {
    var own := Row(p, CellMarks(g, m, p, 4));
    assert Marks(g, m, S + {p}) == Marks(g, m, S) + own;
    forall x | x in Marks(g, m, S)
      ensures x !in own
    {
      assert x.0 in S;
    }
    RowSize(p, CellMarks(g, m, p, 4));
  }

  /** What the whole map pays: each plot p is charged one unit per mark of
      its region, so a region R pays |R| × |Marks(R)|, its area times its
      perimeter (or its number of sides). */
  ghost function Charged(g: Grid, m: Measure, S: set<Pos>): (r: set<(Pos, (Pos, nat))>)
    requires IsGrid(g)
    ensures forall x :: x in r ==> x.0 in S
  {
    set p, c | p in S && c in Marks(g, m, Region(g, p)) :: (p, c)
  }

  ghost function Product<A, B>(X: set<A>, Y: set<B>): (r: set<(A, B)>)
    ensures forall x :: x in r ==> x.0 in X
  {
    set a, b | a in X && b in Y :: (a, b)
  }

  lemma {:induction false} ProductSize<A, B>(X: set<A>, Y: set<B>)
    ensures |Product(X, Y)| == |X| * |Y|
  {
    if X != {} {
      var a :| a in X;
      var row := Row(a, Y);
      RowSize(a, Y);
      assert Product(X, Y) == Product(X - {a}, Y) + row;
      forall x | x in Product(X - {a}, Y)
        ensures x !in row
      {
        assert x.0 != a;
      }
      ProductSize(X - {a}, Y);
      assert |X| == |X - {a}| + 1;
      MulSucc(|X - {a}|, |Y|);
    }
  }

  lemma MulSucc(k: nat, n: nat)
    ensures (k + 1) * n == k * n + n
  {
  }

  lemma {:induction false} RowSize<A, B>(a: A, Y: set<B>)
    ensures |Row(a, Y)| == |Y|
  {
    if Y != {} {
      var b :| b in Y;
      assert Row(a, Y) == Row(a, Y - {b}) + {(a, b)};
      RowSize(a, Y - {b});
    }
  }

  /** A region pays its area times its marks. */
  lemma RegionCharge(g: Grid, m: Measure, s: Pos)
    requires IsGrid(g) && InBounds(g, s)
    ensures |Charged(g, m, Region(g, s))| == |Region(g, s)| * |Marks(g, m, Region(g, s))|
  {
    var R := Region(g, s);
    forall p | p in R
      ensures Region(g, p) == R
    {
      RegionShared(g, s, p);
    }
    assert Charged(g, m, R) == Product(R, Marks(g, m, R));
    ProductSize(R, Marks(g, m, R));
  }

  /** Flooding one more region into a closed set of plots charges that
      region area × marks; a start already seen adds nothing. */
  lemma ChargeRegion(g: Grid, m: Measure, seen: set<Pos>, s: Pos)
    requires IsGrid(g) && InBounds(g, s) && Closed(g, seen)
    ensures Closed(g, seen + Region(g, s))
    ensures |Charged(g, m, seen + Region(g, s))| ==
            |Charged(g, m, seen)| + if s in seen then 0 else |Region(g, s)| * |Marks(g, m, Region(g, s))|
  {
    var R := Region(g, s);
    RegionInOrOut(g, s, seen);
    RegionClosed(g, s);
    if s in seen {
      assert seen + R == seen;
    } else {
      var A, B := Charged(g, m, seen), Charged(g, m, R);
      assert Charged(g, m, seen + R) == A + B;
      forall x | x in A
        ensures x !in B
      {
        assert x.0 in seen;
      }
      assert A * B == {};
      RegionCharge(g, m, s);
    }
  }

  // The flood fill.

  /** The price `area * perimeter` of what one flood fill took, behind a
      call so that the solver does not unfold the product inside `Dfs`. */
  function Times(area: nat, perimeter: nat): nat
  {
    area * perimeter
  }

  /** The neighbours `dfs` pushes from p, for the directions below n. */
  function Pushed(g: Grid, p: Pos, n: nat): seq<Pos>
    requires IsGrid(g) && n <= 4
  {
    if n == 0 then [] else Pushed(g, p, n - 1) + if Link(g, p, n - 1) then [Step(p, n - 1)] else []
  }

  lemma {:induction false} PushedLinks(g: Grid, p: Pos, n: nat, S: set<Pos>)
    requires IsGrid(g) && n <= 4 && p in S && Closed(g, S)
    ensures forall d :: 0 <= d < n && Link(g, p, d) ==> Step(p, d) in Pushed(g, p, n)
    ensures forall q :: q in Pushed(g, p, n) ==> q in S
  {
    if n > 0 {
      PushedLinks(g, p, n - 1, S);
    }
  }

  /** The `for dir in DIRS` loop of `dfs`: one fence segment for each side
      facing off the map or another plant, a push for each other side. */
  method SurveyFences(g: Grid, p: Pos, stack0: seq<Pos>) returns (stack: seq<Pos>, perimeter: nat)
    requires IsGrid(g) && InBounds(g, p)
    ensures stack == stack0 + Pushed(g, p, 4)
    ensures perimeter == |CellMarks(g, Perimeter, p, 4)|
  {
    stack, perimeter := stack0, 0;
    var curVal := g[p.1][p.0];
    for d := 0 to 4
      invariant stack == stack0 + Pushed(g, p, d)
      invariant perimeter == |CellMarks(g, Perimeter, p, d)|
    {
      CellMarksNext(g, Perimeter, p, d);
      var next := Step(p, d);
      if next.0 < 0 || next.0 >= Width(g) || next.1 < 0 || next.1 >= Height(g) {
        perimeter := perimeter + 1;
        continue;
      }
      if g[next.1][next.0] != curVal {
        perimeter := perimeter + 1;
      } else {
        stack := stack + [next];
      }
    }
  }

  /** Off the map, or growing another plant than c: the `side1`, `side2`
      and `diag` tests of `dfs2`. */
  predicate Differs(g: Grid, q: Pos, c: char)
    requires IsGrid(g)
  {
    q.0 < 0 || q.0 >= Width(g) || q.1 < 0 || q.1 >= Height(g) || g[q.1][q.0] != c
  }

  /** The `for dir_index` loop of `dfs2`: a corner where sides d and d + 1
      are both fenced, or both open with a different plant on the diagonal
      between them; a push for each open side. */
  method SurveyCorners(g: Grid, p: Pos, stack0: seq<Pos>) returns (stack: seq<Pos>, corners: nat)
    requires IsGrid(g) && InBounds(g, p)
    ensures stack == stack0 + Pushed(g, p, 4)
    ensures corners == |CellMarks(g, Sides, p, 4)|
  {
    stack, corners := stack0, 0;
    var curVal := g[p.1][p.0];
    for d := 0 to 4
      invariant stack == stack0 + Pushed(g, p, d)
      invariant corners == |CellMarks(g, Sides, p, d)|
    {
      CellMarksNext(g, Sides, p, d);
      var next := Step(p, d);
      var nextNext := Step(p, Clockwise(d));
      var diagPos := Diagonal(p, d);
      var side1 := Differs(g, next, curVal);
      var side2 := Differs(g, nextNext, curVal);
      var diag := Differs(g, diagPos, curVal);
      assert side1 == !Link(g, p, d) && side2 == !Link(g, p, Clockwise(d));
      assert Marked(g, Sides, p, d) <==> (side1 && side2) || (!side1 && !side2 && diag);
      if side1 && side2 {
        corners := corners + 1;
      } else if !side1 && !side2 && diag {
        corners := corners + 1;
      }
      if !side1 {
        stack := stack + [next];
      }
    }
  }

  /** The state of a flood fill from s over a map whose plots `seen0` were
      taken before it: `grown` is what it took itself. */
  ghost predicate Flooding(g: Grid, s: Pos, seen0: set<Pos>, seen: set<Pos>, grown: set<Pos>, stack: seq<Pos>)
    requires IsGrid(g)
  {
    && seen == seen0 + grown && grown * seen0 == {}
    && grown <= Region(g, s)
    && (forall q :: q in stack ==> q in Region(g, s))
    && (s in seen || s in stack)
    && (forall p, d :: p in seen && Link(g, p, d) ==> Step(p, d) in seen || Step(p, d) in stack)
  }

  /** Popping a plot already seen. */
  lemma PopSeen(g: Grid, s: Pos, seen0: set<Pos>, seen: set<Pos>, grown: set<Pos>, stack: seq<Pos>)
    requires IsGrid(g) && stack != [] && Flooding(g, s, seen0, seen, grown, stack)
    requires stack[|stack| - 1] in seen
    ensures Flooding(g, s, seen0, seen, grown, stack[..|stack| - 1])
  {
    var top := stack[|stack| - 1];
    assert forall q :: q in stack ==> q == top || q in stack[..|stack| - 1];
  }

  /** Popping a fresh plot: it is taken, its marks are added and its
      same-plant neighbours pushed. */
  lemma PopFresh(g: Grid, m: Measure, s: Pos, seen0: set<Pos>, seen: set<Pos>, grown: set<Pos>, stack: seq<Pos>)
    requires IsGrid(g) && Closed(g, seen0) && seen <= Cells(g)
    requires stack != [] && Flooding(g, s, seen0, seen, grown, stack)
    requires stack[|stack| - 1] !in seen
    ensures var top := stack[|stack| - 1];
            && InBounds(g, top)
            && Flooding(g, s, seen0, seen + {top}, grown + {top}, stack[..|stack| - 1] + Pushed(g, top, 4))
            && |grown + {top}| == |grown| + 1
            && |Marks(g, m, grown + {top})| == |Marks(g, m, grown)| + |CellMarks(g, m, top, 4)|
            && seen + {top} <= Cells(g) && |Cells(g) - (seen + {top})| < |Cells(g) - seen|
  {
    var top := stack[|stack| - 1];
    assert top in stack;
    TakeTop(g, s, seen0, seen, grown, stack);
    MarksAdd(g, m, grown, top);
    assert Cells(g) - (seen + {top}) == (Cells(g) - seen) - {top};
  }

  lemma TakeTop(g: Grid, s: Pos, seen0: set<Pos>, seen: set<Pos>, grown: set<Pos>, stack: seq<Pos>)
    requires IsGrid(g) && stack != [] && Flooding(g, s, seen0, seen, grown, stack)
    requires stack[|stack| - 1] !in seen && InBounds(g, stack[|stack| - 1])
    ensures var top := stack[|stack| - 1];
            Flooding(g, s, seen0, seen + {top}, grown + {top}, stack[..|stack| - 1] + Pushed(g, top, 4))
  {
    var top := stack[|stack| - 1];
    var rest := stack[..|stack| - 1];
    assert top in stack;
    RegionClosed(g, s);
    PushedLinks(g, top, 4, Region(g, s));
    assert forall q :: q in stack ==> q == top || q in rest;
  }

  /** A fresh plot popped by the flood fill: it is marked seen, counted in
      the area, its marks counted and its open sides pushed. */
  method Visit(g: Grid, m: Measure, p: Pos, stack0: seq<Pos>, seen0: set<Pos>, area0: nat, count0: nat)
    returns (stack: seq<Pos>, seen: set<Pos>, area: nat, count: nat)
    requires IsGrid(g) && InBounds(g, p)
    ensures stack == stack0 + Pushed(g, p, 4) && seen == seen0 + {p}
    ensures area == area0 + 1 && count == count0 + |CellMarks(g, m, p, 4)|
  {
    seen := seen0 + {p};
    area := area0 + 1;
    var marks;
    if m == Perimeter {
      stack, marks := SurveyFences(g, p, stack0);
    } else {
      stack, marks := SurveyCorners(g, p, stack0);
    }
    count := count0 + marks;
  }

  /** One turn of the `while !stack.is_empty()` loop: pop a plot, skip it
      when seen, take it otherwise. The flood state is kept and the search
      gets closer to its end. */
  method Pop(g: Grid, m: Measure, ghost s: Pos, ghost seen0: set<Pos>,
             stack0: seq<Pos>, seen1: set<Pos>, area0: nat, count0: nat, ghost grown0: set<Pos>)
    returns (stack: seq<Pos>, seen: set<Pos>, area: nat, count: nat, ghost grown: set<Pos>)
    requires IsGrid(g) && Closed(g, seen0) && seen1 <= Cells(g) && stack0 != []
    requires Flooding(g, s, seen0, seen1, grown0, stack0)
    requires area0 == |grown0| && count0 == |Marks(g, m, grown0)|
    ensures seen <= Cells(g) && Flooding(g, s, seen0, seen, grown, stack)
    ensures area == |grown| && count == |Marks(g, m, grown)|
    ensures |Cells(g) - seen| < |Cells(g) - seen1| || (seen == seen1 && |stack| < |stack0|)
  {
    var p := stack0[|stack0| - 1];
    if p in seen1 {
      PopSeen(g, s, seen0, seen1, grown0, stack0);
      stack, seen, area, count, grown := stack0[..|stack0| - 1], seen1, area0, count0, grown0;
      return;
    }
    PopFresh(g, m, s, seen0, seen1, grown0, stack0);
    stack, seen, area, count := Visit(g, m, p, stack0[..|stack0| - 1], seen1, area0, count0);
    grown := grown0 + {p};
  }

  /** `dfs` and `dfs2`, which differ only in what they count: an explicit
      stack floods the region of s, skipping plots already in `seen`. It
      leaves `seen` grown by that region and returns area × marks of the
      plots it took, which is nothing when s had been seen. */
  method Dfs(g: Grid, m: Measure, s: Pos, seen0: set<Pos>) returns (price: nat, seen: set<Pos>)
    requires IsGrid(g) && InBounds(g, s) && seen0 <= Cells(g) && Closed(g, seen0)
    ensures seen == seen0 + Region(g, s)
    ensures price == if s in seen0 then 0 else |Region(g, s)| * |Marks(g, m, Region(g, s))|
  {
    var stack := [s];
    seen := seen0;
    var count: nat, area: nat := 0, 0;
    ghost var grown: set<Pos> := {};
    while stack != []
      invariant seen <= Cells(g) && Flooding(g, s, seen0, seen, grown, stack)
      invariant area == |grown| && count == |Marks(g, m, grown)|
      decreases |Cells(g) - seen|, |stack|
    {
      stack, seen, area, count, grown := Pop(g, m, s, seen0, stack, seen, area, count, grown);
    }
    Flooded(g, s, seen0, seen, grown);
    price := Times(area, count);
  }

  /** When the stack runs dry the plots taken are exactly the region of s,
      or nothing when s had been seen before. */
  lemma Flooded(g: Grid, s: Pos, seen0: set<Pos>, seen: set<Pos>, grown: set<Pos>)
    requires IsGrid(g) && InBounds(g, s) && Closed(g, seen0) && Flooding(g, s, seen0, seen, grown, [])
    ensures seen == seen0 + Region(g, s)
    ensures grown == if s in seen0 then {} else Region(g, s)
  {
    assert Closed(g, seen);
    RegionLeast(g, s, seen);
    RegionInOrOut(g, s, seen0);
    if s in seen0 {
      assert forall q :: q in grown ==> q in seen0;
    } else {
      forall q | q in Region(g, s)
        ensures q in grown
      {
        assert q in seen && q !in seen0;
      }
    }
  }

  /** The scan of `part1` and `part2`: every plot, x outermost, floods its
      region if no earlier plot did, and the prices are summed. */
  method Scan(g: Grid, m: Measure) returns (answer: nat)
    requires IsGrid(g)
    ensures answer == |Charged(g, m, Cells(g))|
  {
    var seen: set<Pos> := {};
    answer := 0;
    for x := 0 to Width(g)
      invariant seen <= Cells(g) && Closed(g, seen)
      invariant forall q :: InBounds(g, q) && ColumnsVisited(q, x, 0) ==> q in seen
      invariant answer == |Charged(g, m, seen)|
    {
      for y := 0 to Height(g)
        invariant seen <= Cells(g) && Closed(g, seen)
        invariant forall q :: InBounds(g, q) && ColumnsVisited(q, x, y) ==> q in seen
        invariant answer == |Charged(g, m, seen)|
      {
        seen, answer := VisitPlot(g, m, (x, y), seen, answer);
      }
    }
    assert seen == Cells(g);
  }

  /** One step of the scan: flood the region of s unless an earlier plot did. */
  method VisitPlot(g: Grid, m: Measure, s: Pos, seen0: set<Pos>, answer0: nat) returns (seen: set<Pos>, answer: nat)
    requires IsGrid(g) && InBounds(g, s) && seen0 <= Cells(g) && Closed(g, seen0)
    requires answer0 == |Charged(g, m, seen0)|
    ensures seen <= Cells(g) && Closed(g, seen) && seen0 + {s} <= seen
    ensures answer == |Charged(g, m, seen)|
  {
    ChargeRegion(g, m, seen0, s);
    RegionHasStart(g, s);
    var price;
    price, seen := Dfs(g, m, s, seen0);
    answer := answer0 + price;
  }

  /** Part 1: the sum over regions of area × perimeter, which charges every
      plot once for each fence segment of its region. */
  method Part1(g: Grid) returns (answer: nat)
    requires IsGrid(g)
    ensures answer == |Charged(g, Perimeter, Cells(g))|
  {
    answer := Scan(g, Perimeter);
  }

  /** Part 2: the sum over regions of area × number of sides, counted as
      corners, which charges every plot once for each corner of its region. */
  method Part2(g: Grid) returns (answer: nat)
    requires IsGrid(g)
    ensures answer == |Charged(g, Sides, Cells(g))|
  {
    answer := Scan(g, Sides);
  }

  /** A map of one plot: one region of area 1 behind four fence segments
      and four corners, so both parts price it at 4. */
  lemma LonePlot(m: Measure)
    ensures |Charged(["A"], m, Cells(["A"]))| == 4
  {
    var g: Grid := ["A"];
    var o: Pos := (0, 0);
    LoneRegion();
    LoneMarks(m);
    RegionCharge(g, m, o);
  }

  /** The lone plot is the whole map and its own region. */
  lemma LoneRegion()
    ensures Cells(["A"]) == {(0, 0)} == Region(["A"], (0, 0))
  {
    var g: Grid := ["A"];
    var o: Pos := (0, 0);
    assert Cells(g) == {o};
    RegionHasStart(g, o);
  }

  /** The lone plot carries a mark in each of the four directions. */
  lemma LoneMarks(m: Measure)
    ensures |Marks(["A"], m, {(0, 0)})| == 4
  {
    var g: Grid := ["A"];
    var o: Pos := (0, 0);
    forall d | 0 <= d < 4
      ensures Marked(g, m, o, d)
    {
      assert !InBounds(g, Step(o, d));
    }
    assert Marks(g, m, {o}) == {(o, 0), (o, 1), (o, 2), (o, 3)};
  }
}
