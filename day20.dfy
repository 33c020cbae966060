/** Day 20, "Race Condition": a distance table filled by a search that
    starts at the finish, and a search over "cheats" (up to a fixed number
    of steps that may pass through walls) that counts the distinct
    (start, end) cheats whose total race time is within a budget. */
module Day20 {
  import opened Common
  import opened Paths
  import opened PriorityQueue

  /** The racetrack moves: one step to a neighbouring cell that is in
      bounds and not a wall, cost 1. The cell stepped from is never checked. */
  function Track(maze: Grid): (Pos, Pos) -> int
    requires IsGrid(maze)
  {
    (a: Pos, b: Pos) => if Adjacent(a, b) && Open(maze, b) then 1 else -1
  }

  ghost predicate Reaches(w: (Pos, Pos) -> int, src: Pos, t: Pos)
  {
    exists p :: IsPath(w, p) && p[0] == src && p[|p| - 1] == t
  }

  /** Some route from src to t costs exactly c. */
  ghost predicate HasRoute(w: (Pos, Pos) -> int, src: Pos, t: Pos, c: int)
  {
    exists p :: Route(w, src, p, t, c)
  }

  /** The cells either search can stand on: in bounds, or the cell it starts from. */
  function Region(maze: Grid, start: Pos): (r: set<Pos>)
    requires IsGrid(maze)
    ensures forall p :: p in r <==> InBounds(maze, p) || p == start
  {
    Cells(maze) + {start}
  }

  /** `State`: the heap entry of both searches. */
  datatype State = State(cost: nat, position: Pos, cheatDurationLeft: nat, cheatStart: Option<Pos>, cheatEnd: Option<Pos>)

  /** `a > b` in Rust's order on `Option<(i32, i32)>`: None is least. */
  predicate OptionGreater(a: Option<Pos>, b: Option<Pos>)
  {
    a.Some? && (b.None? || PosGreater(a.value, b.value))
  }

  /** `a` is popped ahead of `b`: the `Ord` reverses cost and then compares
      position, cheat start and cheat end; the duration left is not
      compared, so entries differing only there are popped in either order. */
  predicate Before(a: State, b: State)
  {
    || a.cost < b.cost
    || (a.cost == b.cost && PosGreater(a.position, b.position))
    || (a.cost == b.cost && a.position == b.position && OptionGreater(a.cheatStart, b.cheatStart))
    || (a.cost == b.cost && a.position == b.position && a.cheatStart == b.cheatStart && OptionGreater(a.cheatEnd, b.cheatEnd))
  }

  lemma BeforeIsStrict()
    ensures StrictOrder(Before)
  {
  }

  /** `BinaryHeap::pop`'s choice: an entry no other is popped ahead of. */
  method Top(heap: seq<State>) returns (k: nat)
    requires |heap| > 0
    ensures k < |heap| && forall j :: 0 <= j < |heap| ==> !Before(heap[j], heap[k])
  {
    BeforeIsStrict();
    k := IndexOfTop(heap, Before);
  }

  // The distance table: `dijkstra_shortest`.

  /** What `dijkstra_shortest` leaves in its cache: exactly the cells that
      can be reached from the goal, each with its distance from the goal. */
  ghost predicate DistanceTable(maze: Grid, goal: Pos, cache: map<Pos, nat>)
    requires IsGrid(maze)
  {
    && (forall p :: p in cache <==> Reaches(Track(maze), goal, p))
    && (forall p :: p in cache ==> Shortest(Track(maze), goal, p, cache[p]))
  }

  ghost function Frontier(heap: seq<State>): set<(Pos, int)>
  {
    set e | e in heap :: (e.position, e.cost as int)
  }

  /** heap[k] is a cheapest entry, and removing it takes at most its own
      pair out of the frontier. */
  ghost predicate PopsCheapest(heap: seq<State>, k: nat)
  {
    && k < |heap|
    && AtMost(Frontier(heap), heap[k].cost)
    && (heap[k].position, heap[k].cost as int) in Frontier(heap)
    && Frontier(heap) - {(heap[k].position, heap[k].cost as int)} <= Frontier(RemoveAt(heap, k)) <= Frontier(heap)
  }

  lemma PopTop(heap: seq<State>, k: nat)
    requires k < |heap| && forall j :: 0 <= j < |heap| ==> !Before(heap[j], heap[k])
    ensures PopsCheapest(heap, k)
  {
    forall t, c | (t, c) in Frontier(heap) ensures heap[k].cost <= c {
      var x :| x in heap && (x.position, x.cost as int) == (t, c);
      var j :| 0 <= j < |heap| && heap[j] == x;
    }
    forall pr | pr in Frontier(heap) - {(heap[k].position, heap[k].cost as int)}
      ensures pr in Frontier(RemoveAt(heap, k))
    {
      var x :| x in heap && (x.position, x.cost as int) == pr;
      assert x != heap[k];
      assert x in multiset(heap);
    }
  }

  /** The entry `dijkstra_shortest` pushes for direction d from `e`, if
      any: the cheat fields are carried along unchanged. */
  function MoveFor(maze: Grid, e: State, d: nat): seq<State>
    requires IsGrid(maze) && d < 4
  {
    var next := Step(e.position, d);
    if Open(maze, next) then [e.(cost := e.cost + 1, position := next)] else []
  }

  /** The entries pushed for the first n directions of `DIRS`. */
  function MovesUpTo(maze: Grid, e: State, n: nat): seq<State>
    requires IsGrid(maze) && n <= 4
  {
    if n == 0 then [] else MovesUpTo(maze, e, n - 1) + MoveFor(maze, e, n - 1)
  }

  lemma {:induction false} MovesFacts(maze: Grid, e: State, n: nat)
    requires IsGrid(maze) && n <= 4
    ensures forall x :: x in MovesUpTo(maze, e, n) ==>
              x.cost == e.cost + 1 && Open(maze, x.position) && exists d :: 0 <= d < n && x.position == Step(e.position, d)
    ensures forall d :: 0 <= d < n && Open(maze, Step(e.position, d)) ==>
              (Step(e.position, d), e.cost + 1) in Frontier(MovesUpTo(maze, e, n))
  {
    if n > 0 {
      MovesFacts(maze, e, n - 1);
      var d := n - 1;
      if Open(maze, Step(e.position, d)) {
        assert MoveFor(maze, e, d)[0] in MovesUpTo(maze, e, n);
      }
    }
  }

  /** `pushes` offers every move out of `e`'s cell at `e`'s cost plus
      one, and nothing else. */
  ghost predicate Offered(w: (Pos, Pos) -> int, e: State, pushes: seq<State>)
  {
    Offers(w, e.position, e.cost, Frontier(pushes))
  }

  lemma MovesAreEdges(maze: Grid, e: State)
    requires IsGrid(maze)
    ensures Offered(Track(maze), e, MovesUpTo(maze, e, 4))
  {
    var w := Track(maze);
    var pushes := MovesUpTo(maze, e, 4);
    MovesFacts(maze, e, 4);
    forall t | w(e.position, t) >= 0 ensures (t, e.cost + w(e.position, t)) in Frontier(pushes) {
      var d :| 0 <= d < 4 && t == Step(e.position, d);
    }
    forall t, c | (t, c) in Frontier(pushes) ensures w(e.position, t) >= 0 && c == e.cost + w(e.position, t) {
      var x :| x in pushes && (x.position, x.cost as int) == (t, c);
      var d :| 0 <= d < 4 && x.position == Step(e.position, d);
    }
  }

  ghost predicate InRegion(maze: Grid, goal: Pos, heap: seq<State>)
    requires IsGrid(maze)
  {
    forall e :: e in heap ==> e.position in Region(maze, goal)
  }

  /** Every settled cell was settled at its distance from the goal. */
  ghost predicate SettledExact(w: (Pos, Pos) -> int, goal: Pos, settled: map<Pos, int>)
  {
    forall p :: p in settled ==> Shortest(w, goal, p, settled[p])
  }

  /** The answer so far: set once the start has been popped, and always the
      cost of some route from the goal to the start. */
  ghost predicate AnswerSoFar(w: (Pos, Pos) -> int, goal: Pos, initial: Pos, cache: map<Pos, nat>, shortestPath: Option<nat>)
  {
    && (initial in cache ==> shortestPath.Some?)
    && (shortestPath.Some? ==> HasRoute(w, goal, initial, shortestPath.value))
  }

  /** What holds each time `dijkstra_shortest` pops, for the moves `w`. */
  ghost predicate DistInv(maze: Grid, w: (Pos, Pos) -> int, goal: Pos, initial: Pos, cache: map<Pos, nat>,
                          settled: map<Pos, int>, heap: seq<State>, shortestPath: Option<nat>)
    requires IsGrid(maze)
  {
    && cache.Keys == settled.Keys
    && (forall p :: p in cache ==> settled[p] == cache[p])
    && cache.Keys <= Region(maze, goal)
    && InRegion(maze, goal, heap)
    && SearchInv(w, goal, settled, Frontier(heap))
    && SettledExact(w, goal, settled)
    && AnswerSoFar(w, goal, initial, cache, shortestPath)
  }

  /** How many cells of the region are not yet cached. */
  ghost function Unsettled(maze: Grid, goal: Pos, cache: map<Pos, nat>): nat
    requires IsGrid(maze)
  {
    |Region(maze, goal) - cache.Keys|
  }

  lemma DistInit(maze: Grid, w: (Pos, Pos) -> int, goal: Pos, initial: Pos)
    requires IsGrid(maze)
    ensures DistInv(maze, w, goal, initial, map[], map[], [State(0, goal, 0, None, None)], None)
  {
    SearchStart(w, goal);
    assert Frontier([State(0, goal, 0, None, None)]) == {(goal, 0)};
  }

  /** Every popped entry, stale or not, carries the cost of a real route. */
  lemma PopAnswer(maze: Grid, w: (Pos, Pos) -> int, goal: Pos, initial: Pos, cache: map<Pos, nat>,
                  settled: map<Pos, int>, heap: seq<State>, shortestPath: Option<nat>, k: nat)
    requires IsGrid(maze) && DistInv(maze, w, goal, initial, cache, settled, heap, shortestPath)
    requires k < |heap| && heap[k].position == initial
    ensures DistInv(maze, w, goal, initial, cache, settled, heap, Some(heap[k].cost))
  {
    assert (initial, heap[k].cost as int) in Frontier(heap);
  }

  lemma PopSeen(maze: Grid, w: (Pos, Pos) -> int, goal: Pos, initial: Pos, cache: map<Pos, nat>,
                settled: map<Pos, int>, heap: seq<State>, shortestPath: Option<nat>, k: nat)
    requires IsGrid(maze) && DistInv(maze, w, goal, initial, cache, settled, heap, shortestPath)
    requires k < |heap| && forall j :: 0 <= j < |heap| ==> !Before(heap[j], heap[k])
    requires heap[k].position in cache
    ensures DistInv(maze, w, goal, initial, cache, settled, RemoveAt(heap, k), shortestPath)
  {
    PopTop(heap, k);
    PopSettled(w, goal, settled, Frontier(heap), heap[k].position, heap[k].cost, Frontier(RemoveAt(heap, k)));
  }

  /** The search half of a settling pop. */
  lemma SettleNew(w: (Pos, Pos) -> int, goal: Pos, settled: map<Pos, int>, heap: seq<State>, k: nat, pushes: seq<State>)
    requires SearchInv(w, goal, settled, Frontier(heap)) && SettledExact(w, goal, settled)
    requires PopsCheapest(heap, k) && heap[k].position !in settled
    requires Offered(w, heap[k], pushes)
    ensures SearchInv(w, goal, settled[heap[k].position := heap[k].cost], Frontier(RemoveAt(heap, k) + pushes))
    ensures SettledExact(w, goal, settled[heap[k].position := heap[k].cost])
  {
    var e := heap[k];
    assert PoppedFrom(Frontier(heap), e.position, e.cost, Frontier(RemoveAt(heap, k)));
    PopCheapest(w, goal, settled, Frontier(heap), e.position, e.cost);
    PopAndSettle(w, goal, settled, Frontier(heap), e.position, e.cost, Frontier(RemoveAt(heap, k)), Frontier(pushes));
    assert Frontier(RemoveAt(heap, k) + pushes) == Frontier(RemoveAt(heap, k)) + Frontier(pushes);
  }

  /** Expanding a new cell keeps every queued cell in the region and
      shrinks the part of the region not yet cached. */
  lemma ExpandInRegion(maze: Grid, goal: Pos, cache: map<Pos, nat>, heap: seq<State>, k: nat)
    requires IsGrid(maze) && k < |heap| && heap[k].position !in cache
    requires InRegion(maze, goal, heap) && cache.Keys <= Region(maze, goal)
    ensures InRegion(maze, goal, RemoveAt(heap, k) + MovesUpTo(maze, heap[k], 4))
    ensures cache[heap[k].position := heap[k].cost].Keys <= Region(maze, goal)
    ensures Unsettled(maze, goal, cache[heap[k].position := heap[k].cost]) < Unsettled(maze, goal, cache)
  {
    var e := heap[k];
    assert e in heap;
    var r := Region(maze, goal);
    assert (r - cache.Keys) - {e.position} == r - cache[e.position := e.cost].Keys;
    MovesFacts(maze, e, 4);
    forall x | x in RemoveAt(heap, k) + MovesUpTo(maze, e, 4) ensures x.position in r {
      if x in RemoveAt(heap, k) {
        assert x in heap;
      }
    }
  }

  /** Popping a cell not yet in the cache settles it at its distance,
      pushes its moves and leaves fewer cells to settle. */
  lemma SettleStep(maze: Grid, w: (Pos, Pos) -> int, goal: Pos, initial: Pos, cache: map<Pos, nat>,
                   settled: map<Pos, int>, heap: seq<State>, shortestPath: Option<nat>, k: nat)
    requires IsGrid(maze) && w == Track(maze) && DistInv(maze, w, goal, initial, cache, settled, heap, shortestPath)
    requires k < |heap| && forall j :: 0 <= j < |heap| ==> !Before(heap[j], heap[k])
    requires heap[k].position !in cache
    requires heap[k].position == initial ==> shortestPath == Some(heap[k].cost)
    ensures DistInv(maze, w, goal, initial, cache[heap[k].position := heap[k].cost],
                    settled[heap[k].position := heap[k].cost], RemoveAt(heap, k) + MovesUpTo(maze, heap[k], 4), shortestPath)
    ensures Unsettled(maze, goal, cache[heap[k].position := heap[k].cost]) < Unsettled(maze, goal, cache)
  {
    ExpandInRegion(maze, goal, cache, heap, k);
    PopTop(heap, k);
    MovesAreEdges(maze, heap[k]);
    PopNew(maze, w, goal, initial, cache, settled, heap, shortestPath, k, MovesUpTo(maze, heap[k], 4));
  }

  lemma PopNew(maze: Grid, w: (Pos, Pos) -> int, goal: Pos, initial: Pos, cache: map<Pos, nat>,
               settled: map<Pos, int>, heap: seq<State>, shortestPath: Option<nat>, k: nat, pushes: seq<State>)
    requires IsGrid(maze) && DistInv(maze, w, goal, initial, cache, settled, heap, shortestPath)
    requires PopsCheapest(heap, k) && heap[k].position !in cache
    requires heap[k].position == initial ==> shortestPath == Some(heap[k].cost)
    requires Offered(w, heap[k], pushes)
    requires InRegion(maze, goal, RemoveAt(heap, k) + pushes)
    requires cache[heap[k].position := heap[k].cost].Keys <= Region(maze, goal)
    ensures DistInv(maze, w, goal, initial, cache[heap[k].position := heap[k].cost],
                    settled[heap[k].position := heap[k].cost], RemoveAt(heap, k) + pushes, shortestPath)
  {
    var e := heap[k];
    SettleNew(w, goal, settled, heap, k, pushes);
    var cache' := cache[e.position := e.cost];
    var settled' := settled[e.position := e.cost];
    assert cache'.Keys == settled'.Keys;
    assert AnswerSoFar(w, goal, initial, cache', shortestPath);
  }

  /** With the heap drained, the cache is the distance table. */
  lemma DistDone(maze: Grid, w: (Pos, Pos) -> int, goal: Pos, initial: Pos, cache: map<Pos, nat>,
                 settled: map<Pos, int>, shortestPath: Option<nat>)
    requires IsGrid(maze) && w == Track(maze) && DistInv(maze, w, goal, initial, cache, settled, [], shortestPath)
    ensures DistanceTable(maze, goal, cache)
    ensures shortestPath.None? <==> !Reaches(w, goal, initial)
    ensures shortestPath.Some? ==> HasRoute(w, goal, initial, shortestPath.value)
  {
    assert Frontier([]) == {};
    forall p | Reaches(w, goal, p) ensures p in cache {
      var q :| IsPath(w, q) && q[0] == goal && q[|q| - 1] == p;
      Drained(w, goal, settled, q);
    }
    forall p | p in cache ensures Reaches(w, goal, p) && Shortest(w, goal, p, cache[p]) {
      assert Shortest(w, goal, p, settled[p]);
    }
  }

  /** The pushes after settling `e`: each in-bounds, non-wall neighbour in
      `DIRS` order, one step dearer. */
  method PushMoves(maze: Grid, heap: seq<State>, e: State) returns (heap': seq<State>)
    requires IsGrid(maze)
    ensures heap' == heap + MovesUpTo(maze, e, 4)
  {
    var height := |maze|;
    var width := |maze[0]|;
    heap' := heap;
    for d := 0 to 4
      invariant heap' == heap + MovesUpTo(maze, e, d)
    {
      var dir := Dirs[d];
      var newPos := (e.position.0 + dir.0, e.position.1 + dir.1);
      assert newPos == Step(e.position, d);
      ghost var before := heap';
      if 0 <= newPos.0 < width && 0 <= newPos.1 < height {
        if maze[newPos.1][newPos.0] != '#' {
          heap' := heap' + [State(e.cost + 1, newPos, e.cheatDurationLeft, e.cheatStart, e.cheatEnd)];
        }
      }
      assert heap' == before + MoveFor(maze, e, d);
      assert heap + MovesUpTo(maze, e, d + 1) == before + MoveFor(maze, e, d);
    }
  }

  /** `dijkstra_shortest`: searches outwards from the goal until the heap
      is empty. The returned cache is the distance table of every cell the
      goal reaches. The answer is reassigned on every pop of the start,
      stale pops included, so it is None exactly when the start cannot be
      reached and otherwise the cost of the last route to the start that
      was popped, which need not be the shortest. */
  method DijkstraShortest(maze: Grid, goal: Pos, initial: Pos) returns (shortestPath: Option<nat>, cache: map<Pos, nat>)
    requires IsGrid(maze)
    ensures DistanceTable(maze, goal, cache)
    ensures shortestPath.None? <==> !Reaches(Track(maze), goal, initial)
    ensures shortestPath.Some? ==> HasRoute(Track(maze), goal, initial, shortestPath.value)
  {
    cache := map[];
    ghost var settled: map<Pos, int> := map[];
    ghost var w := Track(maze);
    var heap := [State(0, goal, 0, None, None)];
    shortestPath := None;
    DistInit(maze, w, goal, initial);
    while heap != []
      invariant DistInv(maze, w, goal, initial, cache, settled, heap, shortestPath)
      decreases Unsettled(maze, goal, cache), |heap|
    {
      var k := Top(heap);
      var e := heap[k];
      if e.position == initial {
        PopAnswer(maze, w, goal, initial, cache, settled, heap, shortestPath, k);
        shortestPath := Some(e.cost);
      }
      if e.position in cache {
        PopSeen(maze, w, goal, initial, cache, settled, heap, shortestPath, k);
        heap := RemoveAt(heap, k);
        continue;
      }
      SettleStep(maze, w, goal, initial, cache, settled, heap, shortestPath, k);
      cache := cache[e.position := e.cost];
      settled := settled[e.position := e.cost];
      heap := PushMoves(maze, RemoveAt(heap, k), e);
    }
    DistDone(maze, w, goal, initial, cache, settled, shortestPath);
  }

  /** Every racetrack move costs 1, so a route costs its number of steps. */
  lemma {:induction false} TrackCost(maze: Grid, p: seq<Pos>)
    requires IsGrid(maze) && IsPath(Track(maze), p)
    ensures Cost(Track(maze), p) == |p| - 1
    decreases |p|
  {
    if |p| > 1 {
      Slice(Track(maze), p, 0, |p| - 1);
      TrackCost(maze, p[..|p| - 1]);
    }
  }

  function Reverse<T>(s: seq<T>): (r: seq<T>)
    ensures |r| == |s| && forall i :: 0 <= i < |s| ==> r[i] == s[|s| - 1 - i]
  {
    if s == [] then [] else Reverse(s[1..]) + [s[0]]
  }

  /** A move onto a cell can be undone when the cell left is open. */
  lemma StepBack(maze: Grid, x: Pos, y: Pos)
    requires IsGrid(maze) && Track(maze)(x, y) >= 0 && Open(maze, x)
    ensures Track(maze)(y, x) >= 0
  {
  }

  /** A route whose first cell is open can be run backwards: every other
      cell on it was stepped onto, so it is open too. */
  lemma ReverseTrack(maze: Grid, p: seq<Pos>)
    requires IsGrid(maze) && IsPath(Track(maze), p) && Open(maze, p[0])
    ensures IsPath(Track(maze), Reverse(p)) && Cost(Track(maze), Reverse(p)) == Cost(Track(maze), p)
  {
    var w := Track(maze);
    var r := Reverse(p);
    var n := |p|;
    forall i, j | 0 <= i < j < n && j == i + 1 ensures w(r[i], r[j]) >= 0 {
      var a, b := n - 1 - j, n - 1 - i;
      assert r[i] == p[b] && r[j] == p[a] && b == a + 1;
      assert w(p[a], p[b]) >= 0;
      assert Open(maze, p[a]) by {
        if a > 0 {
          assert w(p[a - 1], p[a]) >= 0;
        }
      }
      StepBack(maze, p[a], p[b]);
    }
    TrackCost(maze, p);
    TrackCost(maze, r);
  }

  /** "cache tracks distance from position to goal": when the goal cell is
      not a wall, each cached value is also the length of the shortest
      route from that cell to the goal. */
  lemma DistanceToGoal(maze: Grid, goal: Pos, cache: map<Pos, nat>, p: Pos)
    requires IsGrid(maze) && DistanceTable(maze, goal, cache) && Open(maze, goal) && p in cache
    ensures Shortest(Track(maze), p, goal, cache[p])
  {
    var w := Track(maze);
    var q :| Route(w, goal, q, p, cache[p]);
    ReverseTrack(maze, q);
    assert Reverse(q)[0] == p && Reverse(q)[|q| - 1] == goal;
    assert Route(w, p, Reverse(q), goal, cache[p]);
    assert Open(maze, p) by {
      if |q| > 1 {
        assert w(q[|q| - 2], q[|q| - 1]) >= 0;
      }
    }
    forall r | IsPath(w, r) && r[0] == p && r[|r| - 1] == goal ensures cache[p] <= Cost(w, r) {
      ReverseTrack(maze, r);
      assert Reverse(r)[0] == goal && Reverse(r)[|r| - 1] == p;
    }
  }

  // The cheat search: `dijkstra_count_shortest`.

  /** A state of the cheat search: position, cheat start, cheat end and
      the cheat steps left. */
  type Cheat = (Pos, Option<Pos>, Option<Pos>, nat)

  /** The key `seen` remembers: the state without the steps left. */
  type SeenKey = (Pos, Option<Pos>, Option<Pos>)

  function KeyOf(e: State): Cheat
  {
    (e.position, e.cheatStart, e.cheatEnd, e.cheatDurationLeft)
  }

  function SeenKeyOf(e: State): SeenKey
  {
    (e.position, e.cheatStart, e.cheatEnd)
  }

  /** The moves of the cheat search, each costing 1, always to an
      in-bounds neighbour. Before a cheat: a step onto a cell that is not
      a wall, or the first cheat step onto any cell, which records the
      cell left as the cheat start and leaves `duration - 1` steps. During
      a cheat with steps left: a step onto any cell, still cheating, or
      onto a non-wall cell, ending the cheat there. An ended cheat has no
      moves. */
  function CheatMove(maze: Grid, duration: nat): (Cheat, Cheat) -> int
    requires IsGrid(maze)
  {
    (a: Cheat, b: Cheat) =>
      if !(Adjacent(a.0, b.0) && InBounds(maze, b.0)) then -1
      else if a.1.None? then
        if (Open(maze, b.0) && b.1.None? && b.2 == a.2 && b.3 == a.3)
           || (b.1 == Some(a.0) && b.2.None? && b.3 == duration - 1)
        then 1 else -1
      else if a.2.None? && a.3 > 0 && b.1 == a.1 && b.3 == a.3 - 1
              && (b.2.None? || (b.2 == Some(b.0) && Open(maze, b.0)))
      then 1
      else -1
  }

  /** Where the cheat search starts: at S, not cheating. */
  function Source(initial: Pos): Cheat
  {
    (initial, None, None, 0)
  }

  /** The race can reach e having cheated from s and ended the cheat at
      e, at total cost c so far. */
  ghost predicate CheatReaches(w: (Cheat, Cheat) -> int, src: Cheat, s: Pos, e: Pos)
  {
    exists p, l: nat, c :: Route(w, src, p, (e, Some(s), Some(e), l), c)
  }

  /** A cheat from s to e that the count accepts: some route that cheats
      from s to e, plus e's distance to the goal, stays within the budget. */
  ghost predicate GoodCheat(w: (Cheat, Cheat) -> int, src: Cheat, cache: map<Pos, nat>, costToBeat: nat, s: Pos, e: Pos)
  {
    && e in cache
    && exists p, l: nat, c :: Route(w, src, p, (e, Some(s), Some(e), l), c) && c + cache[e] <= costToBeat
  }

  /** The entries pushed for direction d out of an expanded state. */
  function CheatFor(maze: Grid, duration: nat, e: State, d: nat): seq<State>
    requires IsGrid(maze) && duration >= 1 && d < 4
  {
    var next := Step(e.position, d);
    if !InBounds(maze, next) then []
    else if e.cheatStart.None? then FreshFor(maze, duration, e, next)
    else if e.cheatEnd.None? && e.cheatDurationLeft > 0 then ActiveFor(maze, e, next)
    else []
  }

  /** Before a cheat, towards `next`: a plain step unless it is a wall,
      then the first cheat step. */
  function FreshFor(maze: Grid, duration: nat, e: State, next: Pos): seq<State>
    requires IsGrid(maze) && duration >= 1
  {
    (if Open(maze, next) then [State(e.cost + 1, next, e.cheatDurationLeft, e.cheatStart, e.cheatEnd)] else [])
    + [State(e.cost + 1, next, duration - 1, Some(e.position), None)]
  }

  /** During a cheat, towards `next`: a cheat step, then the cheat's end
      unless it is a wall. */
  function ActiveFor(maze: Grid, e: State, next: Pos): seq<State>
    requires IsGrid(maze) && e.cheatDurationLeft > 0
  {
    [State(e.cost + 1, next, e.cheatDurationLeft - 1, e.cheatStart, e.cheatEnd)]
    + (if Open(maze, next) then [State(e.cost + 1, next, e.cheatDurationLeft - 1, e.cheatStart, Some(next))] else [])
  }

  function CheatsUpTo(maze: Grid, duration: nat, e: State, n: nat): seq<State>
    requires IsGrid(maze) && duration >= 1 && n <= 4
  {
    if n == 0 then [] else CheatsUpTo(maze, duration, e, n - 1) + CheatFor(maze, duration, e, n - 1)
  }

  /** Each push is one move of the cheat search from `e`, one step dearer. */
  ghost predicate Steps(w: (Cheat, Cheat) -> int, e: State, pushes: seq<State>)
  {
    forall x :: x in pushes ==> w(KeyOf(e), KeyOf(x)) >= 0 && x.cost == e.cost + w(KeyOf(e), KeyOf(x))
  }

  /** An entry whose cheat has ended stands on the non-wall cell where it
      ended, with a cheat start. */
  ghost predicate EndedOnTrack(maze: Grid, x: State)
    requires IsGrid(maze)
  {
    x.cheatEnd.Some? ==> x.cheatEnd.value == x.position && Open(maze, x.position) && x.cheatStart.Some?
  }

  /** The keys the cheat search can remember. */
  function Options(r: set<Pos>): (o: set<Option<Pos>>)
    ensures forall x :: x in o <==> x.None? || x.value in r
  {
    var o := {None} + set p | p in r :: Some(p);
    assert forall x: Option<Pos> | x.Some? && x.value in r :: x == Some(x.value) && x in o;
    o
  }

  function SeenUniverse(maze: Grid, initial: Pos): (u: set<SeenKey>)
    requires IsGrid(maze)
    ensures forall k :: k in u <==> k.0 in Region(maze, initial) && k.1 in Options(Region(maze, initial)) && k.2 in Options(Cells(maze))
  {
    set p, s, e | p in Region(maze, initial) && s in Options(Region(maze, initial)) && e in Options(Cells(maze)) :: (p, s, e)
  }

  ghost function Unseen(maze: Grid, initial: Pos, seen: set<SeenKey>): nat
    requires IsGrid(maze)
  {
    |SeenUniverse(maze, initial) - seen|
  }

  lemma CheatPushIsMove(maze: Grid, duration: nat, e: State, x: State, n: nat)
    requires IsGrid(maze) && duration >= 1 && n <= 4 && x in CheatsUpTo(maze, duration, e, n)
    requires EndedOnTrack(maze, e)
    ensures CheatMove(maze, duration)(KeyOf(e), KeyOf(x)) == 1 && x.cost == e.cost + 1
    ensures EndedOnTrack(maze, x) && InBounds(maze, x.position)
    ensures x.cheatStart.Some? ==> x.cheatStart == e.cheatStart || x.cheatStart == Some(e.position)
    ensures x.cheatEnd.Some? ==> x.cheatEnd == e.cheatEnd || InBounds(maze, x.cheatEnd.value)
  {
    if n > 0 && x !in CheatsUpTo(maze, duration, e, n - 1) {
      assert x in CheatFor(maze, duration, e, n - 1);
    } else if n > 0 {
      CheatPushIsMove(maze, duration, e, x, n - 1);
    }
  }

  /** The pushes out of `e` are moves of the cheat search and keep every
      entry on the track and inside the key universe. */
  lemma CheatPushesFacts(maze: Grid, duration: nat, initial: Pos, e: State)
    requires IsGrid(maze) && duration >= 1 && EndedOnTrack(maze, e) && SeenKeyOf(e) in SeenUniverse(maze, initial)
    ensures Steps(CheatMove(maze, duration), e, CheatsUpTo(maze, duration, e, 4))
    ensures forall x :: x in CheatsUpTo(maze, duration, e, 4) ==>
              EndedOnTrack(maze, x) && SeenKeyOf(x) in SeenUniverse(maze, initial)
  {
    forall x | x in CheatsUpTo(maze, duration, e, 4)
      ensures CheatMove(maze, duration)(KeyOf(e), KeyOf(x)) >= 0 && x.cost == e.cost + CheatMove(maze, duration)(KeyOf(e), KeyOf(x))
      ensures EndedOnTrack(maze, x) && SeenKeyOf(x) in SeenUniverse(maze, initial)
    {
      CheatPushIsMove(maze, duration, e, x, 4);
    }
  }

  /** Some key of a non-empty map. */
  ghost function Pick(m: map<nat, nat>): (k: nat)
    requires |m| > 0
    ensures k in m
  {
    var k :| k in m; k
  }

  /** `answers.values().sum()`: the sum of a map's values. */
  ghost function Total(m: map<nat, nat>): nat
    decreases |m|
  {
    if |m| == 0 then 0
    else
      var k := Pick(m);
      assert (m - {k}).Keys == m.Keys - {k};
      m[k] + Total(m - {k})
  }

  /** The sum does not depend on which key is taken first. */
  lemma {:induction false} TotalRemove(m: map<nat, nat>, k: nat)
    requires k in m
    ensures Total(m) == m[k] + Total(m - {k})
    decreases |m|
  {
    var j := Pick(m);
    if j != k {
      assert (m - {j}).Keys == m.Keys - {j};
      assert (m - {k}).Keys == m.Keys - {k};
      TotalRemove(m - {j}, k);
      TotalRemove(m - {k}, j);
      assert m - {j} - {k} == m - {k} - {j};
    }
  }

  /** `*answers.entry(key).or_default() += 1`. */
  function Bump(m: map<nat, nat>, key: nat): (r: map<nat, nat>)
    ensures key in r && r[key] == (if key in m then m[key] else 0) + 1
    ensures forall k :: k != key ==> (k in r <==> k in m) && (k in m ==> r[k] == m[k])
  {
    m[key := (if key in m then m[key] else 0) + 1]
  }

  /** One more increment adds one to the sum. */
  lemma BumpTotal(m: map<nat, nat>, key: nat)
    ensures Total(Bump(m, key)) == Total(m) + 1
  {
    var r := Bump(m, key);
    TotalRemove(r, key);
    if key in m {
      TotalRemove(m, key);
      BumpRest(m, key);
    } else {
      assert r - {key} == m;
    }
  }

  lemma BumpRest(m: map<nat, nat>, key: nat)
    ensures Bump(m, key) - {key} == m - {key}
  {
  }

  method SumValues(m: map<nat, nat>) returns (total: nat)
    ensures total == Total(m)
  {
    total := 0;
    var rest := m;
    while rest != map[]
      invariant total + Total(rest) == Total(m)
      decreases |rest|
    {
      var k :| k in rest;
      TotalRemove(rest, k);
      assert (rest - {k}).Keys == rest.Keys - {k};
      total := total + rest[k];
      rest := rest - {k};
    }
  }

  ghost function CheatFrontier(heap: seq<State>): set<(Cheat, int)>
  {
    set e | e in heap :: (KeyOf(e), e.cost as int)
  }

  ghost predicate AllOnTrack(maze: Grid, heap: seq<State>)
    requires IsGrid(maze)
  {
    forall x :: x in heap ==> EndedOnTrack(maze, x)
  }

  ghost predicate AllInUniverse(maze: Grid, initial: Pos, heap: seq<State>)
    requires IsGrid(maze)
  {
    forall x :: x in heap ==> SeenKeyOf(x) in SeenUniverse(maze, initial)
  }

  /** Every counted pair's ended-cheat key has been seen. */
  ghost predicate CountedSeen(seen: set<SeenKey>, counted: set<(Pos, Pos)>)
  {
    forall pr :: pr in counted ==> (pr.1, Some(pr.0), Some(pr.1)) in seen
  }

  ghost predicate AllGood(w: (Cheat, Cheat) -> int, initial: Pos, cache: map<Pos, nat>, costToBeat: nat, counted: set<(Pos, Pos)>)
  {
    forall pr :: pr in counted ==> GoodCheat(w, Source(initial), cache, costToBeat, pr.0, pr.1)
  }

  /** What holds of the heap and `seen` each time `dijkstra_count_shortest`
      pops, for the moves `w`. */
  ghost predicate HeapInv(maze: Grid, w: (Cheat, Cheat) -> int, initial: Pos, seen: set<SeenKey>, heap: seq<State>)
    requires IsGrid(maze)
  {
    && seen <= SeenUniverse(maze, initial)
    && AllInUniverse(maze, initial, heap)
    && AllOnTrack(maze, heap)
    && Witnessed(w, Source(initial), CheatFrontier(heap))
  }

  /** The tally: `counted` holds the (start, end) pairs counted so far,
      each within budget and each with its key seen, and `answers` sums to
      their number. */
  ghost predicate Tally(w: (Cheat, Cheat) -> int, initial: Pos, cache: map<Pos, nat>, costToBeat: nat,
                        seen: set<SeenKey>, answers: map<nat, nat>, counted: set<(Pos, Pos)>)
  {
    && CountedSeen(seen, counted)
    && AllGood(w, initial, cache, costToBeat, counted)
    && Total(answers) == |counted|
  }

  lemma CountInit(maze: Grid, w: (Cheat, Cheat) -> int, initial: Pos, cache: map<Pos, nat>, costToBeat: nat)
    requires IsGrid(maze)
    ensures HeapInv(maze, w, initial, {}, [State(0, initial, 0, None, None)])
    ensures Tally(w, initial, cache, costToBeat, {}, map[], {})
  {
    Start(w, Source(initial));
    assert CheatFrontier([State(0, initial, 0, None, None)]) == {(Source(initial), 0)};
  }

  lemma PopWitness(maze: Grid, w: (Cheat, Cheat) -> int, initial: Pos, seen: set<SeenKey>, heap: seq<State>, k: nat)
    requires IsGrid(maze) && HeapInv(maze, w, initial, seen, heap) && k < |heap|
    ensures EndedOnTrack(maze, heap[k]) && SeenKeyOf(heap[k]) in SeenUniverse(maze, initial)
    ensures exists p :: Route(w, Source(initial), p, KeyOf(heap[k]), heap[k].cost)
  {
    assert heap[k] in heap;
    assert (KeyOf(heap[k]), heap[k].cost as int) in CheatFrontier(heap);
  }

  lemma PopDuplicate(maze: Grid, w: (Cheat, Cheat) -> int, initial: Pos, seen: set<SeenKey>, heap: seq<State>, k: nat)
    requires IsGrid(maze) && HeapInv(maze, w, initial, seen, heap) && k < |heap|
    ensures HeapInv(maze, w, initial, seen, RemoveAt(heap, k))
  {
    assert CheatFrontier(RemoveAt(heap, k)) <= CheatFrontier(heap);
  }

  /** Remembering a new key and pushing moves out of it keeps the
      invariant and leaves fewer keys unseen. */
  lemma ExpandStep(maze: Grid, w: (Cheat, Cheat) -> int, initial: Pos, seen: set<SeenKey>, heap: seq<State>,
                   k: nat, pushes: seq<State>, heap': seq<State>)
    requires IsGrid(maze) && HeapInv(maze, w, initial, seen, heap)
    requires k < |heap| && SeenKeyOf(heap[k]) !in seen
    requires Steps(w, heap[k], pushes)
    requires forall x :: x in pushes ==> EndedOnTrack(maze, x) && SeenKeyOf(x) in SeenUniverse(maze, initial)
    requires heap' == RemoveAt(heap, k) + pushes
    ensures HeapInv(maze, w, initial, seen + {SeenKeyOf(heap[k])}, heap')
    ensures Unseen(maze, initial, seen + {SeenKeyOf(heap[k])}) < Unseen(maze, initial, seen)
  {
    var e := heap[k];
    var u := SeenUniverse(maze, initial);
    assert (u - seen) - {SeenKeyOf(e)} == u - (seen + {SeenKeyOf(e)});
    assert SeenKeyOf(e) in u by { assert e in heap; }
    PushesStayOnTrack(maze, initial, heap, k, pushes);
    PushesWitnessed(w, Source(initial), heap, k, pushes);
  }

  /** Popping an entry that is never pushed back: only its key is remembered. */
  lemma DropStep(maze: Grid, w: (Cheat, Cheat) -> int, initial: Pos, seen: set<SeenKey>, heap: seq<State>, k: nat)
    requires IsGrid(maze) && HeapInv(maze, w, initial, seen, heap)
    requires k < |heap| && SeenKeyOf(heap[k]) !in seen
    ensures HeapInv(maze, w, initial, seen + {SeenKeyOf(heap[k])}, RemoveAt(heap, k))
    ensures Unseen(maze, initial, seen + {SeenKeyOf(heap[k])}) < Unseen(maze, initial, seen)
  {
    assert RemoveAt(heap, k) + [] == RemoveAt(heap, k);
    ExpandStep(maze, w, initial, seen, heap, k, [], RemoveAt(heap, k));
  }

  /** Remembering one more key keeps the tally. */
  lemma TallySeen(w: (Cheat, Cheat) -> int, initial: Pos, cache: map<Pos, nat>, costToBeat: nat,
                  seen: set<SeenKey>, answers: map<nat, nat>, counted: set<(Pos, Pos)>, key: SeenKey)
    requires Tally(w, initial, cache, costToBeat, seen, answers, counted)
    ensures Tally(w, initial, cache, costToBeat, seen + {key}, answers, counted)
  {
  }

  lemma PushesStayOnTrack(maze: Grid, initial: Pos, heap: seq<State>, k: nat, pushes: seq<State>)
    requires IsGrid(maze) && AllOnTrack(maze, heap) && AllInUniverse(maze, initial, heap) && k < |heap|
    requires forall x :: x in pushes ==> EndedOnTrack(maze, x) && SeenKeyOf(x) in SeenUniverse(maze, initial)
    ensures AllOnTrack(maze, RemoveAt(heap, k) + pushes) && AllInUniverse(maze, initial, RemoveAt(heap, k) + pushes)
  {
    forall x | x in RemoveAt(heap, k) + pushes ensures EndedOnTrack(maze, x) && SeenKeyOf(x) in SeenUniverse(maze, initial) {
      if x in RemoveAt(heap, k) {
        assert x in heap;
      }
    }
  }

  /** Pushing moves out of a popped entry keeps every entry witnessed by a route. */
  lemma PushesWitnessed(w: (Cheat, Cheat) -> int, src: Cheat, heap: seq<State>, k: nat, pushes: seq<State>)
    requires Witnessed(w, src, CheatFrontier(heap)) && k < |heap| && Steps(w, heap[k], pushes)
    ensures Witnessed(w, src, CheatFrontier(RemoveAt(heap, k) + pushes))
  {
    var e := heap[k];
    assert (KeyOf(e), e.cost as int) in CheatFrontier(heap);
    var here :| Route(w, src, here, KeyOf(e), e.cost);
    var heap' := RemoveAt(heap, k) + pushes;
    forall t, c | (t, c) in CheatFrontier(heap') ensures exists p :: Route(w, src, p, t, c) {
      var x :| x in heap' && (KeyOf(x), x.cost as int) == (t, c);
      if x in RemoveAt(heap, k) {
        assert x in heap;
        assert (t, c) in CheatFrontier(heap);
      } else {
        Extend(w, src, here, KeyOf(e), e.cost, t);
      }
    }
  }

  /** Counting a new ended cheat within budget keeps the tally: its pair
      was not counted before, because its key was not yet seen. */
  lemma CountStep(maze: Grid, w: (Cheat, Cheat) -> int, initial: Pos, cache: map<Pos, nat>, costToBeat: nat,
                  seen: set<SeenKey>, answers: map<nat, nat>, counted: set<(Pos, Pos)>, e: State, d: nat)
    requires IsGrid(maze) && Tally(w, initial, cache, costToBeat, seen, answers, counted)
    requires SeenKeyOf(e) !in seen && EndedOnTrack(maze, e) && e.cheatEnd.Some?
    requires exists p :: Route(w, Source(initial), p, KeyOf(e), e.cost)
    requires e.position in cache && d == cache[e.position] && e.cost + d <= costToBeat
    ensures (e.cheatStart.value, e.position) !in counted
    ensures Tally(w, initial, cache, costToBeat, seen + {SeenKeyOf(e)}, Bump(answers, e.cost + d),
                  counted + {(e.cheatStart.value, e.position)})
  {
    var pr := (e.cheatStart.value, e.position);
    assert pr !in counted by {
      assert SeenKeyOf(e) == (pr.1, Some(pr.0), Some(pr.1));
    }
    assert GoodCheat(w, Source(initial), cache, costToBeat, pr.0, pr.1) by {
      var p :| Route(w, Source(initial), p, KeyOf(e), e.cost);
      assert KeyOf(e) == (pr.1, Some(pr.0), Some(pr.1), e.cheatDurationLeft);
    }
    BumpTotal(answers, e.cost + d);
  }

  /** The pushes after expanding `e`: what `PushFresh` pushes before a
      cheat, what `PushActive` pushes during a cheat with steps left, and
      nothing otherwise. */
  method ExpandCheats(maze: Grid, duration: nat, heap: seq<State>, e: State) returns (heap': seq<State>)
    requires IsGrid(maze) && duration >= 1
    ensures heap' == heap + CheatsUpTo(maze, duration, e, 4)
  {
    match e.cheatStart {
      case Some(_) =>
        if e.cheatEnd.None? && e.cheatDurationLeft > 0 {
          heap' := PushActive(maze, duration, heap, e);
        } else {
          heap' := heap;
          assert CheatsUpTo(maze, duration, e, 1) == [];
          assert CheatsUpTo(maze, duration, e, 2) == [];
          assert CheatsUpTo(maze, duration, e, 3) == [];
          assert CheatsUpTo(maze, duration, e, 4) == [];
        }
      case None =>
        heap' := PushFresh(maze, duration, heap, e);
    }
  }

  /** For each in-bounds neighbour, in `DIRS` order: a cheat step, and the
      cheat's end there if it is not a wall. */
  method PushActive(maze: Grid, duration: nat, heap: seq<State>, e: State) returns (heap': seq<State>)
    requires IsGrid(maze) && duration >= 1 && e.cheatStart.Some? && e.cheatEnd.None? && e.cheatDurationLeft > 0
    ensures heap' == heap + CheatsUpTo(maze, duration, e, 4)
  {
    var height := |maze|;
    var width := |maze[0]|;
    heap' := heap;
    for d := 0 to 4
      invariant heap' == heap + CheatsUpTo(maze, duration, e, d)
    {
      var dir := Dirs[d];
      var newPos := (e.position.0 + dir.0, e.position.1 + dir.1);
      assert newPos == Step(e.position, d);
      ghost var before := heap';
      if 0 <= newPos.0 < width && 0 <= newPos.1 < height {
        heap' := heap' + [State(e.cost + 1, newPos, e.cheatDurationLeft - 1, e.cheatStart, e.cheatEnd)];
        if maze[newPos.1][newPos.0] != '#' {
          heap' := heap' + [State(e.cost + 1, newPos, e.cheatDurationLeft - 1, e.cheatStart, Some(newPos))];
        }
        assert heap' == before + ActiveFor(maze, e, newPos);
      }
      assert heap' == before + CheatFor(maze, duration, e, d);
      assert heap + CheatsUpTo(maze, duration, e, d + 1) == before + CheatFor(maze, duration, e, d);
    }
  }

  /** For each in-bounds neighbour, in `DIRS` order: a plain step if it is
      not a wall, and always the first cheat step. */
  method PushFresh(maze: Grid, duration: nat, heap: seq<State>, e: State) returns (heap': seq<State>)
    requires IsGrid(maze) && duration >= 1 && e.cheatStart.None?
    ensures heap' == heap + CheatsUpTo(maze, duration, e, 4)
  {
    var height := |maze|;
    var width := |maze[0]|;
    heap' := heap;
    for d := 0 to 4
      invariant heap' == heap + CheatsUpTo(maze, duration, e, d)
    {
      var dir := Dirs[d];
      var newPos := (e.position.0 + dir.0, e.position.1 + dir.1);
      assert newPos == Step(e.position, d);
      ghost var before := heap';
      if 0 <= newPos.0 < width && 0 <= newPos.1 < height {
        if maze[newPos.1][newPos.0] != '#' {
          heap' := heap' + [State(e.cost + 1, newPos, e.cheatDurationLeft, e.cheatStart, e.cheatEnd)];
        }
        heap' := heap' + [State(e.cost + 1, newPos, duration - 1, Some(e.position), None)];
        assert heap' == before + FreshFor(maze, duration, e, newPos);
      }
      assert heap' == before + CheatFor(maze, duration, e, d);
      assert heap + CheatsUpTo(maze, duration, e, d + 1) == before + CheatFor(maze, duration, e, d);
    }
  }

  /** `dijkstra_count_shortest`: the number of distinct (start, end)
      cheats popped within the budget whose cost so far plus the end's
      distance to the goal is within the budget. Each counted pair has a
      route of the cheat search that cheats from its start to its end and
      then fits the budget; no pair is counted twice, since an ended cheat
      stands on its end and `seen` keys on (position, start, end). None is
      the panic on an ended cheat whose cell has no known distance. The
      check for an ended cheat on a wall can never fire. */
  method CountShortest(maze: Grid, cache: map<Pos, nat>, goal: Pos, initial: Pos, cheatDuration: nat, costToBeat: nat)
    returns (r: Option<nat>, ghost counted: set<(Pos, Pos)>)
    requires IsGrid(maze) && cheatDuration >= 1
    ensures r.Some? ==> r.value == |counted|
    ensures forall pr :: pr in counted ==> GoodCheat(CheatMove(maze, cheatDuration), Source(initial), cache, costToBeat, pr.0, pr.1)
    ensures r.None? ==> exists s, e :: e !in cache && CheatReaches(CheatMove(maze, cheatDuration), Source(initial), s, e)
  {
    ghost var w := CheatMove(maze, cheatDuration);
    var seen: set<SeenKey> := {};
    var heap := [State(0, initial, 0, None, None)];
    var answers: map<nat, nat> := map[];
    counted := {};
    CountInit(maze, w, initial, cache, costToBeat);
    while heap != []
      invariant HeapInv(maze, w, initial, seen, heap)
      invariant Tally(w, initial, cache, costToBeat, seen, answers, counted)
      decreases Unseen(maze, initial, seen), |heap|
    {
      var k := Top(heap);
      var e := heap[k];
      if e.cost > costToBeat {
        break;
      }
      if e.position == goal && e.cheatStart == None {
        break;
      }
      if SeenKeyOf(e) in seen {
        PopDuplicate(maze, w, initial, seen, heap, k);
        heap := RemoveAt(heap, k);
        continue;
      }
      PopWitness(maze, w, initial, seen, heap, k);
      if e.cheatStart.Some? && e.cheatEnd.Some? {
        assert maze[e.position.1][e.position.0] != '#';
        if e.position in cache {
          var d := cache[e.position];
          DropStep(maze, w, initial, seen, heap, k);
          if e.cost + d <= costToBeat {
            CountStep(maze, w, initial, cache, costToBeat, seen, answers, counted, e, d);
            answers := Bump(answers, e.cost + d);
            counted := counted + {(e.cheatStart.value, e.position)};
          } else {
            TallySeen(w, initial, cache, costToBeat, seen, answers, counted, SeenKeyOf(e));
          }
          seen := seen + {SeenKeyOf(e)};
          heap := RemoveAt(heap, k);
          continue;
        }
        r := None;
        assert CheatReaches(w, Source(initial), e.cheatStart.value, e.position);
        return;
      }
      CheatPushesFacts(maze, cheatDuration, initial, e);
      var next := ExpandCheats(maze, cheatDuration, RemoveAt(heap, k), e);
      ExpandStep(maze, w, initial, seen, heap, k, CheatsUpTo(maze, cheatDuration, e, 4), next);
      TallySeen(w, initial, cache, costToBeat, seen, answers, counted, SeenKeyOf(e));
      seen := seen + {SeenKeyOf(e)};
      heap := next;
    }
    var total := SumValues(answers);
    r := Some(total);
  }

  /** `part1` and `part2` share everything but the cheat length: find S
      and E, fill the distance table, and count the cheats that save at
      least `saveAtLeast` on the answer of `dijkstra_shortest`. None is a
      panic: the start cannot be reached (`unwrap`), the saving exceeds
      that answer (the `usize` subtraction), or the count panics. */
  method Race(maze: Grid, cheatDuration: nat, saveAtLeast: nat)
    returns (r: Option<nat>, initial: Pos, goal: Pos, cache: map<Pos, nat>, shortestPath: Option<nat>, ghost counted: set<(Pos, Pos)>)
    requires IsGrid(maze) && cheatDuration >= 1
    ensures LastInColumns(maze, 'S', initial, Width(maze), 0) && LastInColumns(maze, 'E', goal, Width(maze), 0)
    ensures DistanceTable(maze, goal, cache)
    ensures shortestPath.None? <==> !Reaches(Track(maze), goal, initial)
    ensures shortestPath.Some? ==> HasRoute(Track(maze), goal, initial, shortestPath.value)
    ensures r.Some? ==> shortestPath.Some? && saveAtLeast <= shortestPath.value && r.value == |counted|
    ensures r.Some? ==> forall pr :: pr in counted ==>
              GoodCheat(CheatMove(maze, cheatDuration), Source(initial), cache, shortestPath.value - saveAtLeast, pr.0, pr.1)
  {
    initial, goal := ScanColumns(maze, 'S', 'E');
    shortestPath, cache := DijkstraShortest(maze, goal, initial);
    counted := {};
    if shortestPath.None? || shortestPath.value < saveAtLeast {
      return None, initial, goal, cache, shortestPath, counted;
    }
    r, counted := CountShortest(maze, cache, goal, initial, cheatDuration, shortestPath.value - saveAtLeast);
  }

  /** `part1`: cheats last at most 2 steps. */
  method Part1(maze: Grid, saveAtLeast: nat)
    returns (r: Option<nat>, initial: Pos, goal: Pos, cache: map<Pos, nat>, shortestPath: Option<nat>, ghost counted: set<(Pos, Pos)>)
    requires IsGrid(maze)
    ensures LastInColumns(maze, 'S', initial, Width(maze), 0) && LastInColumns(maze, 'E', goal, Width(maze), 0)
    ensures DistanceTable(maze, goal, cache)
    ensures shortestPath.None? <==> !Reaches(Track(maze), goal, initial)
    ensures shortestPath.Some? ==> HasRoute(Track(maze), goal, initial, shortestPath.value)
    ensures r.Some? ==> shortestPath.Some? && saveAtLeast <= shortestPath.value && r.value == |counted|
    ensures r.Some? ==> forall pr :: pr in counted ==>
              GoodCheat(CheatMove(maze, 2), Source(initial), cache, shortestPath.value - saveAtLeast, pr.0, pr.1)
  {
    r, initial, goal, cache, shortestPath, counted := Race(maze, 2, saveAtLeast);
  }

  /** `part2`: cheats last at most 20 steps. */
  method Part2(maze: Grid, saveAtLeast: nat)
    returns (r: Option<nat>, initial: Pos, goal: Pos, cache: map<Pos, nat>, shortestPath: Option<nat>, ghost counted: set<(Pos, Pos)>)
    requires IsGrid(maze)
    ensures LastInColumns(maze, 'S', initial, Width(maze), 0) && LastInColumns(maze, 'E', goal, Width(maze), 0)
    ensures DistanceTable(maze, goal, cache)
    ensures shortestPath.None? <==> !Reaches(Track(maze), goal, initial)
    ensures shortestPath.Some? ==> HasRoute(Track(maze), goal, initial, shortestPath.value)
    ensures r.Some? ==> shortestPath.Some? && saveAtLeast <= shortestPath.value && r.value == |counted|
    ensures r.Some? ==> forall pr :: pr in counted ==>
              GoodCheat(CheatMove(maze, 20), Source(initial), cache, shortestPath.value - saveAtLeast, pr.0, pr.1)
  {
    r, initial, goal, cache, shortestPath, counted := Race(maze, 20, saveAtLeast);
  }
}
