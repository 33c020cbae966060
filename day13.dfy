/** Day 13, "Claw Contraption": the fewest tokens that win a prize, when
    button A moves the claw by `a` for 3 tokens and button B moves it by
    `b` for 1 token, found by a uniform-cost search over claw positions. */
module Day13 {
  import opened Common
  import opened Paths
  import opened PriorityQueue

  /** A claw position or a button's move: a pair of `usize`. */
  type Point = (nat, nat)

  const Origin: Point := (0, 0)

  function Add(p: Point, q: Point): Point
  {
    (p.0 + q.0, p.1 + q.1)
  }

  /** One press: B for 1 token, A for 3. When both buttons move the claw
      alike, the cheaper press is the edge. */
  function Press(a: Point, b: Point): (Point, Point) -> int
  {
    (p: Point, q: Point) => if q == Add(p, b) then 1 else if q == Add(p, a) then 3 else -1
  }

  /** Not past the prize in either coordinate. */
  predicate InBox(goal: Point, p: Point)
  {
    p.0 <= goal.0 && p.1 <= goal.1
  }

  /** The presses `dijkstra` explores: it never expands a position past
      the prize, so only presses between positions within the box count. */
  function Boxed(goal: Point, a: Point, b: Point): (Point, Point) -> int
  {
    (p: Point, q: Point) => if InBox(goal, p) && InBox(goal, q) then Press(a, b)(p, q) else -1
  }

  function AtPrize(goal: Point): Point -> bool
  {
    (p: Point) => p == goal
  }

  // What the search computes, in the puzzle's terms.

  /** n presses of a button that moves the claw by `a`. */
  function Scale(n: nat, a: Point): Point
  {
    if n == 0 then Origin else Add(Scale(n - 1, a), a)
  }

  /** n presses move the claw by n times the button's move in each coordinate. */
  lemma {:induction false} ScaleIsProduct(n: nat, a: Point)
    ensures Scale(n, a) == (n * a.0, n * a.1)
  {
    if n > 0 {
      ScaleIsProduct(n - 1, a);
      assert n * a.0 == (n - 1) * a.0 + a.0 && n * a.1 == (n - 1) * a.1 + a.1;
    }
  }

  /** i presses of A and j presses of B put the claw exactly on the prize. */
  predicate Lands(goal: Point, a: Point, b: Point, i: nat, j: nat)
  {
    Add(Scale(i, a), Scale(j, b)) == goal
  }

  ghost predicate Winnable(goal: Point, a: Point, b: Point)
  {
    exists i: nat, j: nat :: Lands(goal, a, b, i, j)
  }

  /** c tokens win the prize, and no way of landing on it costs fewer. */
  ghost predicate FewestTokens(goal: Point, a: Point, b: Point, c: nat)
  {
    && (exists i: nat, j: nat :: Lands(goal, a, b, i, j) && 3 * i + j == c)
    && (forall i: nat, j: nat :: Lands(goal, a, b, i, j) ==> c <= 3 * i + j)
  }

  /** One more press keeps the claw at i·a + j·b for the new counts, and
      adds its price to 3·i + j. */
  lemma PressCounts(a: Point, b: Point, s: Point, t: Point, i: nat, j: nat) returns (i': nat, j': nat)
    requires s == Add(Scale(i, a), Scale(j, b)) && Press(a, b)(s, t) >= 0
    ensures t == Add(Scale(i', a), Scale(j', b)) && 3 * i' + j' == 3 * i + j + Press(a, b)(s, t)
  {
    if t == Add(s, b) {
      assert Scale(j + 1, b) == Add(Scale(j, b), b);
      i', j' := i, j + 1;
    } else {
      assert Scale(i + 1, a) == Add(Scale(i, a), a);
      i', j' := i + 1, j;
    }
  }

  /** Every route of presses from the origin ends at i·a + j·b and costs
      3·i + j, for the numbers i and j of A and B presses along it. */
  lemma {:induction false} RouteCounts(a: Point, b: Point, p: seq<Point>) returns (i: nat, j: nat)
    requires IsPath(Press(a, b), p) && p[0] == Origin
    ensures p[|p| - 1] == Add(Scale(i, a), Scale(j, b))
    ensures Cost(Press(a, b), p) == 3 * i + j
    decreases |p|
  {
    if |p| == 1 {
      return 0, 0;
    }
    var w := Press(a, b);
    var q := p[..|p| - 1];
    Slice(w, p, 0, |p| - 1);
    i, j := RouteCounts(a, b, q);
    assert p[|p| - 2] == q[|q| - 1];
    assert w(p[|p| - 2], p[|p| - 1]) >= 0;
    i, j := PressCounts(a, b, p[|p| - 2], p[|p| - 1], i, j);
  }

  /** j presses of B and then i presses of A, as a sequence of positions. */
  function Presses(a: Point, b: Point, i: nat, j: nat): (p: seq<Point>)
    ensures |p| > 0 && p[|p| - 1] == Add(Scale(i, a), Scale(j, b))
  {
    if i > 0 then Presses(a, b, i - 1, j) + [Add(Scale(i, a), Scale(j, b))]
    else if j > 0 then Presses(a, b, 0, j - 1) + [Scale(j, b)]
    else [Origin]
  }

  /** A press of A costs at most 3 tokens (1 when B moves alike). */
  lemma PriceOfA(a: Point, b: Point, i: nat, j: nat)
    requires i > 0
    ensures 1 <= Press(a, b)(Add(Scale(i - 1, a), Scale(j, b)), Add(Scale(i, a), Scale(j, b))) <= 3
  {
    var s := Add(Scale(i - 1, a), Scale(j, b));
    assert Add(Scale(i, a), Scale(j, b)) == Add(s, a);
  }

  /** A press of B costs 1 token. */
  lemma PriceOfB(a: Point, b: Point, j: nat)
    requires j > 0
    ensures Press(a, b)(Scale(j - 1, b), Scale(j, b)) == 1
  {
  }

  /** Any numbers of presses make a route costing at most 3·i + j (less
      when the two buttons move alike). */
  lemma {:induction false} PressesRoute(a: Point, b: Point, i: nat, j: nat)
    ensures IsPath(Press(a, b), Presses(a, b, i, j)) && Presses(a, b, i, j)[0] == Origin
    ensures Cost(Press(a, b), Presses(a, b, i, j)) <= 3 * i + j
    decreases i, j
  {
    var w := Press(a, b);
    if i > 0 {
      var p := Presses(a, b, i - 1, j);
      PressesRoute(a, b, i - 1, j);
      PriceOfA(a, b, i, j);
      Extend(w, Origin, p, p[|p| - 1], Cost(w, p), Add(Scale(i, a), Scale(j, b)));
    } else if j > 0 {
      var p := Presses(a, b, 0, j - 1);
      PressesRoute(a, b, 0, j - 1);
      PriceOfB(a, b, j);
      assert p[|p| - 1] == Scale(j - 1, b);
      Extend(w, Origin, p, p[|p| - 1], Cost(w, p), Scale(j, b));
    }
  }

  /** The cheapest route of presses to the prize is the fewest tokens. */
  lemma CheapestIsFewest(goal: Point, a: Point, b: Point, c: int)
    requires ShortestToGoal(Press(a, b), Origin, AtPrize(goal), c)
    ensures c >= 0 && FewestTokens(goal, a, b, c)
  {
    var w := Press(a, b);
    var p :| IsPath(w, p) && p[0] == Origin && AtPrize(goal)(p[|p| - 1]) && Cost(w, p) == c;
    var i, j := RouteCounts(a, b, p);
    assert Lands(goal, a, b, i, j);
    NoFewerTokens(goal, a, b, c);
  }

  /** Every way of landing on the prize is a route, so none is cheaper. */
  lemma NoFewerTokens(goal: Point, a: Point, b: Point, c: int)
    requires ShortestToGoal(Press(a, b), Origin, AtPrize(goal), c)
    ensures forall i: nat, j: nat :: Lands(goal, a, b, i, j) ==> c <= 3 * i + j
  {
    forall i: nat, j: nat | Lands(goal, a, b, i, j) ensures c <= 3 * i + j {
      PressesRoute(a, b, i, j);
      var q := Presses(a, b, i, j);
      assert AtPrize(goal)(q[|q| - 1]);
    }
  }

  /** The prize can be reached by pressing buttons exactly when some
      numbers of presses land on it. */
  lemma ReachableIsWinnable(goal: Point, a: Point, b: Point)
    ensures ReachesGoal(Press(a, b), Origin, AtPrize(goal)) <==> Winnable(goal, a, b)
  {
    var w := Press(a, b);
    if ReachesGoal(w, Origin, AtPrize(goal)) {
      var p :| IsPath(w, p) && p[0] == Origin && AtPrize(goal)(p[|p| - 1]);
      var i, j := RouteCounts(a, b, p);
      assert Lands(goal, a, b, i, j);
    }
    if Winnable(goal, a, b) {
      var i: nat, j: nat :| Lands(goal, a, b, i, j);
      PressesRoute(a, b, i, j);
      var q := Presses(a, b, i, j);
      assert AtPrize(goal)(q[|q| - 1]);
    }
  }

  /** Presses never move the claw back: along a route every position is
      at most the last one in both coordinates. */
  lemma {:induction false} Monotone(a: Point, b: Point, p: seq<Point>)
    requires IsPath(Press(a, b), p)
    ensures forall k :: 0 <= k < |p| ==> InBox(p[|p| - 1], p[k])
    decreases |p|
  {
    if |p| > 1 {
      var q := p[..|p| - 1];
      Slice(Press(a, b), p, 0, |p| - 1);
      Monotone(a, b, q);
      assert Press(a, b)(p[|p| - 2], p[|p| - 1]) >= 0;
      assert forall k :: 0 <= k < |q| ==> q[k] == p[k];
    }
  }

  /** Discarding overshot positions loses nothing: the routes to the
      prize, and their costs, are the same with or without the box. */
  lemma BoxedRoutes(goal: Point, a: Point, b: Point, p: seq<Point>)
    ensures IsPath(Boxed(goal, a, b), p) ==> IsPath(Press(a, b), p) && Cost(Press(a, b), p) == Cost(Boxed(goal, a, b), p)
    ensures IsPath(Press(a, b), p) && p[|p| - 1] == goal ==>
              IsPath(Boxed(goal, a, b), p) && Cost(Boxed(goal, a, b), p) == Cost(Press(a, b), p)
  {
    var w, v := Press(a, b), Boxed(goal, a, b);
    if IsPath(v, p) {
      forall k | 0 < k < |p| ensures w(p[k - 1], p[k]) == v(p[k - 1], p[k]) {
        assert v(p[k - 1], p[k]) >= 0;
      }
      AgreeingEdges(w, v, p);
    }
    if IsPath(w, p) && p[|p| - 1] == goal {
      Monotone(a, b, p);
      AgreeingEdges(v, w, p);
    }
  }

  lemma BoxedCheapest(goal: Point, a: Point, b: Point, c: int)
    requires ShortestToGoal(Boxed(goal, a, b), Origin, AtPrize(goal), c)
    ensures ShortestToGoal(Press(a, b), Origin, AtPrize(goal), c)
  {
    var v := Boxed(goal, a, b);
    var p :| IsPath(v, p) && p[0] == Origin && AtPrize(goal)(p[|p| - 1]) && Cost(v, p) == c;
    BoxedRoutes(goal, a, b, p);
    forall q | IsPath(Press(a, b), q) && q[0] == Origin && AtPrize(goal)(q[|q| - 1])
      ensures c <= Cost(Press(a, b), q)
    {
      BoxedRoutes(goal, a, b, q);
    }
  }

  lemma BoxedReaches(goal: Point, a: Point, b: Point)
    ensures ReachesGoal(Press(a, b), Origin, AtPrize(goal)) ==> ReachesGoal(Boxed(goal, a, b), Origin, AtPrize(goal))
  {
    if p :| IsPath(Press(a, b), p) && p[0] == Origin && AtPrize(goal)(p[|p| - 1]) {
      BoxedRoutes(goal, a, b, p);
    }
  }

  // The search.

  /** `State`: the heap entry of `dijkstra`. */
  datatype State = State(cost: nat, position: Point)

  /** `a` is popped ahead of `b`: the lowest cost first, then the greatest
      position (x, then y). */
  predicate Before(a: State, b: State)
  {
    || a.cost < b.cost
    || (a.cost == b.cost && a.position.0 > b.position.0)
    || (a.cost == b.cost && a.position.0 == b.position.0 && a.position.1 > b.position.1)
  }

  lemma BeforeIsStrict()
    ensures StrictOrder(Before)
  {
  }

  /** `BinaryHeap::pop`'s choice: an entry no other is popped ahead of. */
  method Top(heap: seq<State>) returns (k: nat)
    requires |heap| > 0
    ensures k < |heap| && forall j :: 0 <= j < |heap| ==> !Before(heap[j], heap[k])
  {
    BeforeIsStrict();
    k := IndexOfTop(heap, Before);
  }

  ghost function Frontier(heap: seq<State>): set<(Point, int)>
  {
    set e | e in heap :: (e.position, e.cost as int)
  }

  ghost predicate PopsCheapest(heap: seq<State>, k: nat)
  {
    && k < |heap|
    && PoppedFrom(Frontier(heap), heap[k].position, heap[k].cost, Frontier(RemoveAt(heap, k)))
  }

  /** The entry `pop` returns is the cheapest, and removing it takes at
      most its own pair out of the frontier. */
  lemma PopTop(heap: seq<State>, k: nat)
    requires k < |heap| && forall j :: 0 <= j < |heap| ==> !Before(heap[j], heap[k])
    ensures PopsCheapest(heap, k)
  {
    forall t, c | (t, c) in Frontier(heap) ensures heap[k].cost <= c {
      var x :| x in heap && (x.position, x.cost as int) == (t, c);
      var j :| 0 <= j < |heap| && heap[j] == x;
    }
    forall pr | pr in Frontier(heap) - {(heap[k].position, heap[k].cost as int)}
      ensures pr in Frontier(RemoveAt(heap, k))
    {
      var x :| x in heap && (x.position, x.cost as int) == pr;
      assert x != heap[k];
      assert x in multiset(heap);
    }
  }

  /** The positions not past the prize. */
  function Box(goal: Point): (box: set<Point>)
    ensures forall p :: p in box <==> InBox(goal, p)
  {
    set x: nat, y: nat | x <= goal.0 && y <= goal.1 :: (x, y)
  }

  ghost function Unsettled(goal: Point, cache: set<Point>): nat
  {
    |Box(goal) - cache|
  }

  /** Every edge of `w` stays within the box. */
  ghost predicate EdgesInBox(w: (Point, Point) -> int, goal: Point)
  {
    forall s, t :: w(s, t) >= 0 ==> InBox(goal, s) && InBox(goal, t)
  }

  /** Some route from the origin reaches t for at most d tokens. */
  ghost predicate Affords(w: (Point, Point) -> int, t: Point, d: int)
  {
    exists p :: IsPath(w, p) && p[0] == Origin && p[|p| - 1] == t && Cost(w, p) <= d
  }

  /** Every queued entry within the box is affordable at its cost; entries
      past the prize never lead anywhere. */
  ghost predicate Bounded(w: (Point, Point) -> int, goal: Point, frontier: set<(Point, int)>)
  {
    forall t, d :: (t, d) in frontier && InBox(goal, t) ==> Affords(w, t, d)
  }

  /** What holds each time `dijkstra` pops, for the presses `w`. The
      search invariant of the other solvers holds with "a route of
      exactly its cost" weakened to "at most", because when both buttons
      move alike the dearer A press is queued beside the B press. */
  ghost predicate Inv(goal: Point, w: (Point, Point) -> int, cache: set<Point>, settled: map<Point, int>,
                      heap: seq<State>)
  {
    && cache == settled.Keys
    && cache <= Box(goal)
    && goal !in cache
    && LooseSearch(goal, w, settled, Frontier(heap))
  }

  ghost predicate LooseSearch(goal: Point, w: (Point, Point) -> int, settled: map<Point, int>,
                              frontier: set<(Point, int)>)
  {
    && SourceCovered(Origin, settled, frontier)
    && SettledOptimal(w, Origin, settled)
    && FrontierCovers(w, settled, frontier)
    && Bounded(w, goal, frontier)
  }

  lemma InvInit(goal: Point, w: (Point, Point) -> int)
    ensures Inv(goal, w, {}, map[], [State(0, Origin)])
  {
    assert Frontier([State(0, Origin)]) == {(Origin, 0)};
    assert IsPath(w, [Origin]) && Cost(w, [Origin]) == 0;
  }

  /** Popping the prize first, before any overshoot or cache check, gives
      the cheapest route to it. */
  lemma PopAtPrize(goal: Point, w: (Point, Point) -> int, cache: set<Point>, settled: map<Point, int>,
                   heap: seq<State>, k: nat)
    requires Inv(goal, w, cache, settled, heap)
    requires PopsCheapest(heap, k) && heap[k].position == goal
    ensures ShortestToGoal(w, Origin, AtPrize(goal), heap[k].cost)
  {
    var c := heap[k].cost;
    forall p | IsPath(w, p) && p[0] == Origin && AtPrize(goal)(p[|p| - 1])
      ensures c <= Cost(w, p)
    {
      FrontierCrossing(w, Origin, settled, Frontier(heap), p);
    }
    assert Affords(w, goal, c);
    var p :| IsPath(w, p) && p[0] == Origin && p[|p| - 1] == goal && Cost(w, p) <= c;
    assert AtPrize(goal)(p[|p| - 1]);
  }

  /** Dropping an overshot entry, or one whose position is cached, keeps
      the invariant. */
  lemma PopDiscard(goal: Point, w: (Point, Point) -> int, cache: set<Point>, settled: map<Point, int>,
                   heap: seq<State>, k: nat)
    requires Inv(goal, w, cache, settled, heap) && EdgesInBox(w, goal)
    requires PopsCheapest(heap, k)
    requires heap[k].position in cache || !InBox(goal, heap[k].position)
    ensures Inv(goal, w, cache, settled, RemoveAt(heap, k))
  {
    var s, c := heap[k].position, heap[k].cost as int;
    var rest := Frontier(RemoveAt(heap, k));
    forall s0, t | s0 in settled && t !in settled && w(s0, t) >= 0
      ensures exists d :: (t, d) in rest && d <= settled[s0] + w(s0, t)
    {
      var d :| (t, d) in Frontier(heap) && d <= settled[s0] + w(s0, t);
      assert (t, d) != (s, c);
    }
    assert Origin in settled || (Origin, 0) in rest;
  }

  /** `pushed` offers every edge out of s at c plus its cost; entries in
      the box are edges costing c plus at least their price. */
  ghost predicate LooseOffers(w: (Point, Point) -> int, goal: Point, s: Point, c: int, pushed: set<(Point, int)>)
  {
    && OffersEvery(w, s, c, pushed)
    && (forall t, d :: (t, d) in pushed && InBox(goal, t) ==> w(s, t) >= 0 && c + w(s, t) <= d)
  }

  /** Settling the cheapest entry and offering the presses out of it keeps
      the search invariant. */
  lemma SettleLoose(goal: Point, w: (Point, Point) -> int, settled: map<Point, int>, frontier: set<(Point, int)>,
                    s: Point, c: int, rest: set<(Point, int)>, pushed: set<(Point, int)>)
    requires SourceCovered(Origin, settled, frontier) && SettledOptimal(w, Origin, settled)
    requires FrontierCovers(w, settled, frontier) && Bounded(w, goal, frontier)
    requires PoppedFrom(frontier, s, c, rest) && s !in settled && InBox(goal, s)
    requires LooseOffers(w, goal, s, c, pushed)
    ensures SourceCovered(Origin, settled[s := c], rest + pushed)
    ensures SettledOptimal(w, Origin, settled[s := c])
    ensures FrontierCovers(w, settled[s := c], rest + pushed)
    ensures Bounded(w, goal, rest + pushed)
  {
    NoCheaperRoute(w, Origin, settled, frontier, s, c);
    SettleOptimal(w, Origin, settled, s, c);
    LooseBounded(goal, w, frontier, s, c, rest, pushed);
    PopCovers(w, settled, frontier, s, c, rest, pushed);
  }

  /** Entries offered in the box out of an affordable entry are affordable. */
  lemma LooseBounded(goal: Point, w: (Point, Point) -> int, frontier: set<(Point, int)>,
                     s: Point, c: int, rest: set<(Point, int)>, pushed: set<(Point, int)>)
    requires Bounded(w, goal, frontier) && (s, c) in frontier && rest <= frontier && InBox(goal, s)
    requires LooseOffers(w, goal, s, c, pushed)
    ensures Bounded(w, goal, rest + pushed)
  {
    assert Affords(w, s, c);
    var here :| IsPath(w, here) && here[0] == Origin && here[|here| - 1] == s && Cost(w, here) <= c;
    forall t, d | (t, d) in pushed && InBox(goal, t)
      ensures Affords(w, t, d)
    {
      Extend(w, Origin, here, s, Cost(w, here), t);
      assert (here + [t])[|here + [t]| - 1] == t;
    }
  }

  lemma BoxedInBox(goal: Point, a: Point, b: Point)
    ensures EdgesInBox(Boxed(goal, a, b), goal)
  {
  }

  /** What `dijkstra` pushes after expanding `e`: A for 3 tokens, then B for 1. */
  function Pushes(e: State, a: Point, b: Point): seq<State>
  {
    [State(e.cost + 3, Add(e.position, a)), State(e.cost + 1, Add(e.position, b))]
  }

  /** From a position within the box the pushes offer every press at its
      price, and anything they queue within the box is a press costing at
      least its price. */
  lemma PushesOffer(goal: Point, a: Point, b: Point, e: State)
    requires InBox(goal, e.position)
    ensures LooseOffers(Boxed(goal, a, b), goal, e.position, e.cost, Frontier(Pushes(e, a, b)))
  {
    var w, s, c := Boxed(goal, a, b), e.position, e.cost as int;
    var pushed := Frontier(Pushes(e, a, b));
    assert pushed == {(Add(s, a), c + 3), (Add(s, b), c + 1)};
    forall t | w(s, t) >= 0 ensures (t, c + w(s, t)) in pushed {
      assert InBox(goal, t) && w(s, t) == Press(a, b)(s, t);
      if t == Add(s, b) {
        assert (t, c + 1) in pushed;
      } else {
        assert (t, c + 3) in pushed;
      }
    }
    forall t, d | (t, d) in pushed && InBox(goal, t) ensures w(s, t) >= 0 && c + w(s, t) <= d {
      assert w(s, t) == Press(a, b)(s, t);
      if t == Add(s, b) {
        assert w(s, t) == 1;
      } else {
        assert t == Add(s, a) && w(s, t) == 3;
      }
    }
  }

  /** Popping a position within the box and not yet cached settles it at
      the popped cost, queues its presses and leaves fewer positions to
      settle. */
  lemma SettleStep(goal: Point, a: Point, b: Point, w: (Point, Point) -> int, cache: set<Point>,
                   settled: map<Point, int>, heap: seq<State>, k: nat)
    requires w == Boxed(goal, a, b) && Inv(goal, w, cache, settled, heap)
    requires PopsCheapest(heap, k)
    requires heap[k].position !in cache && InBox(goal, heap[k].position) && heap[k].position != goal
    ensures Inv(goal, w, cache + {heap[k].position}, settled[heap[k].position := heap[k].cost],
                RemoveAt(heap, k) + Pushes(heap[k], a, b))
    ensures Unsettled(goal, cache + {heap[k].position}) < Unsettled(goal, cache)
  {
    var e := heap[k];
    PushesOffer(goal, a, b, e);
    SettleSearch(goal, w, settled, heap, k, Pushes(e, a, b));
    CacheStep(goal, cache, settled, e.position, e.cost);
  }

  /** Caching a new position within the box, other than the prize, keeps
      the cache bookkeeping and leaves fewer positions to settle. */
  lemma CacheStep(goal: Point, cache: set<Point>, settled: map<Point, int>, p: Point, c: int)
    requires cache == settled.Keys && cache <= Box(goal) && goal !in cache
    requires p !in cache && InBox(goal, p) && p != goal
    ensures cache + {p} == settled[p := c].Keys && cache + {p} <= Box(goal) && goal !in cache + {p}
    ensures Unsettled(goal, cache + {p}) < Unsettled(goal, cache)
  {
    assert (Box(goal) - cache) - {p} == Box(goal) - (cache + {p});
  }

  /** The search half of `SettleStep`, for any pushes that offer the presses. */
  lemma SettleSearch(goal: Point, w: (Point, Point) -> int, settled: map<Point, int>, heap: seq<State>, k: nat,
                     pushes: seq<State>)
    requires LooseSearch(goal, w, settled, Frontier(heap))
    requires PopsCheapest(heap, k) && heap[k].position !in settled && InBox(goal, heap[k].position)
    requires LooseOffers(w, goal, heap[k].position, heap[k].cost, Frontier(pushes))
    ensures LooseSearch(goal, w, settled[heap[k].position := heap[k].cost], Frontier(RemoveAt(heap, k) + pushes))
  {
    var e := heap[k];
    SettleLoose(goal, w, settled, Frontier(heap), e.position, e.cost, Frontier(RemoveAt(heap, k)), Frontier(pushes));
    assert Frontier(RemoveAt(heap, k) + pushes) == Frontier(RemoveAt(heap, k)) + Frontier(pushes);
  }

  /** With nothing left to pop and the prize never popped, no press
      sequence within the box reaches it. */
  lemma Drained(goal: Point, w: (Point, Point) -> int, cache: set<Point>, settled: map<Point, int>)
    requires Inv(goal, w, cache, settled, [])
    ensures !ReachesGoal(w, Origin, AtPrize(goal))
  {
    assert Frontier([]) == {};
    if p :| IsPath(w, p) && p[0] == Origin && AtPrize(goal)(p[|p| - 1]) {
      FrontierCrossing(w, Origin, settled, {}, p);
    }
  }

  /** The cheapest route within the box is the fewest tokens. */
  lemma FoundFewest(goal: Point, a: Point, b: Point, c: nat)
    requires ShortestToGoal(Boxed(goal, a, b), Origin, AtPrize(goal), c)
    ensures FewestTokens(goal, a, b, c)
  {
    BoxedCheapest(goal, a, b, c);
    CheapestIsFewest(goal, a, b, c);
  }

  /** No route within the box means no presses land on the prize. */
  lemma NoneWinnable(goal: Point, a: Point, b: Point)
    requires !ReachesGoal(Boxed(goal, a, b), Origin, AtPrize(goal))
    ensures !Winnable(goal, a, b)
  {
    BoxedReaches(goal, a, b);
    ReachableIsWinnable(goal, a, b);
  }

  /** The two pushes after expanding `e`. */
  method PushPresses(heap: seq<State>, e: State, a: Point, b: Point) returns (heap': seq<State>)
    ensures heap' == heap + Pushes(e, a, b)
  {
    heap' := heap + [State(e.cost + 3, (e.position.0 + a.0, e.position.1 + a.1))];
    heap' := heap' + [State(e.cost + 1, (e.position.0 + b.0, e.position.1 + b.1))];
  }

  /** `dijkstra`: the fewest tokens that win the prize, or None exactly
      when no numbers of presses land on it. */
  method Dijkstra(goal: Point, a: Point, b: Point) returns (r: Option<nat>)
    ensures r.Some? ==> FewestTokens(goal, a, b, r.value)
    ensures r.None? <==> !Winnable(goal, a, b)
  {
    var cache: set<Point> := {};
    ghost var settled: map<Point, int> := map[];
    ghost var w := Boxed(goal, a, b);
    var heap := [State(0, (0, 0))];
    InvInit(goal, w);
    BoxedInBox(goal, a, b);
    while heap != []
      invariant Inv(goal, w, cache, settled, heap)
      decreases Unsettled(goal, cache), |heap|
    {
      var k := Top(heap);
      var e := heap[k];
      PopTop(heap, k);
      if e.position == goal {
        PopAtPrize(goal, w, cache, settled, heap, k);
        FoundFewest(goal, a, b, e.cost);
        return Some(e.cost);
      }
      if e.position.0 > goal.0 || e.position.1 > goal.1 {
        // Overshot: no press moves the claw back.
        assert !InBox(goal, e.position);
        PopDiscard(goal, w, cache, settled, heap, k);
        heap := RemoveAt(heap, k);
        continue;
      }

      if e.position in cache {
        PopDiscard(goal, w, cache, settled, heap, k);
        heap := RemoveAt(heap, k);
        continue;
      }
      SettleStep(goal, a, b, w, cache, settled, heap, k);
      cache := cache + {e.position};
      settled := settled[e.position := e.cost];

      heap := PushPresses(RemoveAt(heap, k), e, a, b);
    }
    Drained(goal, w, cache, settled);
    NoneWinnable(goal, a, b);
    return None;
  }

  /** `min_cost_old` of `part1`: what `dijkstra` finds, or 0 tokens for a
      prize no presses win. */
  method TokensOrZero(goal: Point, a: Point, b: Point) returns (tokens: nat)
    ensures Winnable(goal, a, b) ==> FewestTokens(goal, a, b, tokens)
    ensures !Winnable(goal, a, b) ==> tokens == 0
  {
    var r := Dijkstra(goal, a, b);
    tokens := if r.Some? then r.value else 0;
  }
}
