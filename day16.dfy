/** Day 16, "Reindeer Maze": the cheapest score from S to E when a step
    forward costs 1 and a quarter turn costs 1000, and the number of cells
    that lie on a cheapest route. */
module Day16 {
  import opened Common
  import opened Paths
  import opened PriorityQueue

  /** A search state: where the reindeer stands and which `DIRS` entry it faces. */
  type Key = (Pos, nat)

  /** The moves of both searches: a step forward into an open cell costs 1,
      a quarter turn on the spot costs 1000. */
  function Edge(maze: Grid): (Key, Key) -> int
    requires IsGrid(maze)
  {
    (a: Key, b: Key) =>
      if a.1 < 4 && b.1 == a.1 && b.0 == Step(a.0, a.1) && Open(maze, b.0) then 1
      else if a.1 < 4 && b.0 == a.0 && (b.1 == Clockwise(a.1) || b.1 == Anticlockwise(a.1)) then 1000
      else -1
  }

  /** Reaching the goal cell facing any way counts. */
  function AtGoal(goal: Pos): Key -> bool
  {
    (k: Key) => k.0 == goal
  }

  /** The states either search can visit: an in-bounds cell or the start,
      facing one of the four directions. */
  function Universe(maze: Grid, initial: Pos): (u: set<Key>)
    requires IsGrid(maze)
    ensures forall k :: k in u <==> (InBounds(maze, k.0) || k.0 == initial) && k.1 < 4
  {
    set p, d | p in Cells(maze) + {initial} && 0 <= d < 4 :: (p, d)
  }

  /** `State`: the heap entry of `dijkstra`. */
  datatype State = State(cost: nat, position: Pos, dirIndex: nat)

  function KeyOf(e: State): Key
  {
    (e.position, e.dirIndex)
  }

  /** How many states of the universe are not yet cached. */
  ghost function Unsettled(maze: Grid, initial: Pos, cache: set<Key>): nat
    requires IsGrid(maze)
  {
    |Universe(maze, initial) - cache|
  }

  ghost predicate InUniverse(maze: Grid, initial: Pos, heap: seq<State>)
    requires IsGrid(maze)
  {
    forall e :: e in heap ==> KeyOf(e) in Universe(maze, initial)
  }

  /** `a` is popped ahead of `b`: the heap is a max-heap on an `Ord` that
      reverses cost, so the lowest cost comes first, then the greatest
      position, then the greatest direction index. */
  predicate Before(a: State, b: State)
  {
    || a.cost < b.cost
    || (a.cost == b.cost && PosGreater(a.position, b.position))
    || (a.cost == b.cost && a.position == b.position && a.dirIndex > b.dirIndex)
  }

  lemma BeforeIsStrict()
    ensures StrictOrder(Before)
  {
  }

  /** `BinaryHeap::pop`'s choice: an entry no other is popped ahead of. */
  method Top(heap: seq<State>) returns (k: nat)
    requires |heap| > 0
    ensures k < |heap| && forall j :: 0 <= j < |heap| ==> !Before(heap[j], heap[k])
  {
    BeforeIsStrict();
    k := IndexOfTop(heap, Before);
  }

  ghost function Frontier(heap: seq<State>): set<(Key, int)>
  {
    set e | e in heap :: (KeyOf(e), e.cost as int)
  }

  /** heap[k] is a cheapest entry, and removing it takes at most its own
      pair out of the frontier. */
  ghost predicate PopsCheapest(heap: seq<State>, k: nat)
  {
    && k < |heap|
    && AtMost(Frontier(heap), heap[k].cost)
    && (KeyOf(heap[k]), heap[k].cost as int) in Frontier(heap)
    && Frontier(heap) - {(KeyOf(heap[k]), heap[k].cost as int)} <= Frontier(RemoveAt(heap, k)) <= Frontier(heap)
  }

  /** The entry `pop` returns is the cheapest, and removing it takes at
      most its own pair out of the frontier. */
  lemma PopTop(heap: seq<State>, k: nat)
    requires k < |heap| && forall j :: 0 <= j < |heap| ==> !Before(heap[j], heap[k])
    ensures PopsCheapest(heap, k)
  {
    forall t, c | (t, c) in Frontier(heap) ensures heap[k].cost <= c {
      var x :| x in heap && (KeyOf(x), x.cost as int) == (t, c);
      var j :| 0 <= j < |heap| && heap[j] == x;
    }
    forall pr | pr in Frontier(heap) - {(KeyOf(heap[k]), heap[k].cost as int)}
      ensures pr in Frontier(RemoveAt(heap, k))
    {
      var x :| x in heap && (KeyOf(x), x.cost as int) == pr;
      assert x != heap[k];
      assert x in multiset(heap);
    }
  }

  /** What `dijkstra` pushes after expanding `e`. */
  function Pushes(maze: Grid, e: State): seq<State>
    requires IsGrid(maze) && e.dirIndex < 4
  {
    var ahead := Step(e.position, e.dirIndex);
    (if Open(maze, ahead) then [State(e.cost + 1, ahead, e.dirIndex)] else [])
    + [State(e.cost + 1000, e.position, Clockwise(e.dirIndex)),
       State(e.cost + 1000, e.position, Anticlockwise(e.dirIndex))]
  }

  /** `pushes` offers every move out of `e`'s state at `e`'s cost plus
      the move's, and nothing else. */
  ghost predicate Offered(w: (Key, Key) -> int, e: State, pushes: seq<State>)
  {
    Offers(w, KeyOf(e), e.cost, Frontier(pushes))
  }

  /** The pushed entries offer exactly the moves out of the expanded state. */
  lemma PushesAreEdges(maze: Grid, w: (Key, Key) -> int, e: State)
    requires IsGrid(maze) && w == Edge(maze) && e.dirIndex < 4
    ensures Offered(w, e, Pushes(maze, e))
  {
    PushesCover(maze, e);
    PushesAreMoves(maze, e);
  }

  lemma PushesCover(maze: Grid, e: State)
    requires IsGrid(maze) && e.dirIndex < 4
    ensures forall t :: Edge(maze)(KeyOf(e), t) >= 0 ==> (t, e.cost + Edge(maze)(KeyOf(e), t)) in Frontier(Pushes(maze, e))
  {
    var pushes := Pushes(maze, e);
    forall t | Edge(maze)(KeyOf(e), t) >= 0 ensures (t, e.cost + Edge(maze)(KeyOf(e), t)) in Frontier(pushes) {
      if t.0 == Step(e.position, e.dirIndex) && t.1 == e.dirIndex {
        assert pushes[0] == State(e.cost + 1, t.0, t.1);
      } else if t.1 == Clockwise(e.dirIndex) {
        assert pushes[|pushes| - 2] == State(e.cost + 1000, t.0, t.1);
      } else {
        assert pushes[|pushes| - 1] == State(e.cost + 1000, t.0, t.1);
      }
    }
  }

  lemma PushesAreMoves(maze: Grid, e: State)
    requires IsGrid(maze) && e.dirIndex < 4
    ensures forall t, d :: (t, d) in Frontier(Pushes(maze, e)) ==>
              Edge(maze)(KeyOf(e), t) >= 0 && d == e.cost + Edge(maze)(KeyOf(e), t)
  {
    var pushes := Pushes(maze, e);
    forall x | x in pushes ensures Edge(maze)(KeyOf(e), KeyOf(x)) >= 0 && x.cost == e.cost + Edge(maze)(KeyOf(e), KeyOf(x)) {
      PushIsMove(maze, e, x);
    }
  }

  lemma PushIsMove(maze: Grid, e: State, x: State)
    requires IsGrid(maze) && e.dirIndex < 4 && x in Pushes(maze, e)
    ensures Edge(maze)(KeyOf(e), KeyOf(x)) >= 0 && x.cost == e.cost + Edge(maze)(KeyOf(e), KeyOf(x))
  {
    if x.position == e.position {
      assert x.dirIndex != e.dirIndex;
    }
  }

  /** What holds each time `dijkstra` pops, for the moves `w`. */
  ghost predicate Inv(maze: Grid, w: (Key, Key) -> int, goal: Pos, initial: Pos, cache: set<Key>,
                      settled: map<Key, int>, heap: seq<State>)
    requires IsGrid(maze)
  {
    && cache == settled.Keys
    && cache <= Universe(maze, initial)
    && InUniverse(maze, initial, heap)
    && (forall k :: k in settled ==> k.0 != goal)
    && SearchInv(w, (initial, 0), settled, Frontier(heap))
  }

  lemma InvInit(maze: Grid, w: (Key, Key) -> int, goal: Pos, initial: Pos)
    requires IsGrid(maze)
    ensures Inv(maze, w, goal, initial, {}, map[], [State(0, initial, 0)])
  {
    SearchStart(w, (initial, 0));
    assert Frontier([State(0, initial, 0)]) == {((initial, 0), 0)};
  }

  lemma PopAtGoal(maze: Grid, w: (Key, Key) -> int, goal: Pos, initial: Pos, cache: set<Key>,
                  settled: map<Key, int>, heap: seq<State>, k: nat)
    requires IsGrid(maze) && Inv(maze, w, goal, initial, cache, settled, heap)
    requires k < |heap| && forall j :: 0 <= j < |heap| ==> !Before(heap[j], heap[k])
    requires heap[k].position == goal
    ensures ShortestToGoal(w, (initial, 0), AtGoal(goal), heap[k].cost)
    ensures ReachesGoal(w, (initial, 0), AtGoal(goal))
  {
    PopTop(heap, k);
    PopGoal(w, (initial, 0), AtGoal(goal), settled, Frontier(heap), KeyOf(heap[k]), heap[k].cost);
    ShortestReaches(w, (initial, 0), AtGoal(goal), heap[k].cost);
  }

  lemma PopSeen(maze: Grid, w: (Key, Key) -> int, goal: Pos, initial: Pos, cache: set<Key>,
                settled: map<Key, int>, heap: seq<State>, k: nat)
    requires IsGrid(maze) && Inv(maze, w, goal, initial, cache, settled, heap)
    requires k < |heap| && forall j :: 0 <= j < |heap| ==> !Before(heap[j], heap[k])
    requires KeyOf(heap[k]) in cache
    ensures Inv(maze, w, goal, initial, cache, settled, RemoveAt(heap, k))
  {
    PopTop(heap, k);
    PopSettled(w, (initial, 0), settled, Frontier(heap), KeyOf(heap[k]), heap[k].cost,
               Frontier(RemoveAt(heap, k)));
  }

  /** Expanding a new state keeps every queued state in the universe and
      shrinks the part of the universe not yet expanded. */
  lemma ExpandInUniverse(maze: Grid, initial: Pos, cache: set<Key>, heap: seq<State>, k: nat)
    requires IsGrid(maze) && k < |heap| && KeyOf(heap[k]) !in cache
    requires InUniverse(maze, initial, heap)
    ensures heap[k].dirIndex < 4
    ensures InUniverse(maze, initial, RemoveAt(heap, k) + Pushes(maze, heap[k]))
    ensures |Universe(maze, initial) - (cache + {KeyOf(heap[k])})| < |Universe(maze, initial) - cache|
  {
    var e := heap[k];
    assert e in heap;
    var u := Universe(maze, initial);
    assert (u - cache) - {KeyOf(e)} == u - (cache + {KeyOf(e)});
    forall x | x in RemoveAt(heap, k) + Pushes(maze, e) ensures KeyOf(x) in u {
      if x in RemoveAt(heap, k) {
        assert x in heap;
      }
    }
  }

  lemma PopNew(maze: Grid, w: (Key, Key) -> int, goal: Pos, initial: Pos, cache: set<Key>,
               settled: map<Key, int>, heap: seq<State>, k: nat, pushes: seq<State>)
    requires IsGrid(maze) && Inv(maze, w, goal, initial, cache, settled, heap)
    requires PopsCheapest(heap, k) && KeyOf(heap[k]) !in cache && heap[k].position != goal
    requires Offered(w, heap[k], pushes)
    requires InUniverse(maze, initial, RemoveAt(heap, k) + pushes)
    ensures Inv(maze, w, goal, initial, cache + {KeyOf(heap[k])}, settled[KeyOf(heap[k]) := heap[k].cost],
                RemoveAt(heap, k) + pushes)
  {
    SettleNew(w, (initial, 0), settled, heap, k, pushes);
    var key := KeyOf(heap[k]);
    var settled' := settled[key := heap[k].cost];
    assert cache + {key} == settled'.Keys;
    assert cache + {key} <= Universe(maze, initial) by { assert heap[k] in heap; }
    assert forall q :: q in settled' ==> q.0 != goal;
  }

  /** The search half of `PopNew`. */
  lemma SettleNew(w: (Key, Key) -> int, src: Key, settled: map<Key, int>, heap: seq<State>, k: nat, pushes: seq<State>)
    requires SearchInv(w, src, settled, Frontier(heap))
    requires PopsCheapest(heap, k) && KeyOf(heap[k]) !in settled
    requires Offered(w, heap[k], pushes)
    ensures SearchInv(w, src, settled[KeyOf(heap[k]) := heap[k].cost], Frontier(RemoveAt(heap, k) + pushes))
  {
    var e := heap[k];
    assert PoppedFrom(Frontier(heap), KeyOf(e), e.cost, Frontier(RemoveAt(heap, k)));
    PopAndSettle(w, src, settled, Frontier(heap), KeyOf(e), e.cost, Frontier(RemoveAt(heap, k)), Frontier(pushes));
    assert Frontier(RemoveAt(heap, k) + pushes) == Frontier(RemoveAt(heap, k)) + Frontier(pushes);
  }

  /** Popping a state not yet in the cache settles it at the popped cost,
      pushes its moves and leaves fewer states to settle. */
  lemma SettleStep(maze: Grid, w: (Key, Key) -> int, goal: Pos, initial: Pos, cache: set<Key>,
                   settled: map<Key, int>, heap: seq<State>, k: nat)
    requires IsGrid(maze) && w == Edge(maze) && Inv(maze, w, goal, initial, cache, settled, heap)
    requires k < |heap| && forall j :: 0 <= j < |heap| ==> !Before(heap[j], heap[k])
    requires KeyOf(heap[k]) !in cache && heap[k].position != goal
    ensures heap[k].dirIndex < 4
    ensures Inv(maze, w, goal, initial, cache + {KeyOf(heap[k])}, settled[KeyOf(heap[k]) := heap[k].cost],
                RemoveAt(heap, k) + Pushes(maze, heap[k]))
    ensures Unsettled(maze, initial, cache + {KeyOf(heap[k])}) < Unsettled(maze, initial, cache)
  {
    ExpandInUniverse(maze, initial, cache, heap, k);
    PopTop(heap, k);
    PushesAreEdges(maze, w, heap[k]);
    PopNew(maze, w, goal, initial, cache, settled, heap, k, Pushes(maze, heap[k]));
  }

  /** The pushes after expanding `e`: straight ahead if the cell there is
      in bounds and not a wall, then both quarter turns. */
  method Expand(maze: Grid, heap: seq<State>, e: State) returns (heap': seq<State>)
    requires IsGrid(maze) && e.dirIndex < 4
    ensures heap' == heap + Pushes(maze, e)
  {
    var height := |maze|;
    var width := |maze[0]|;
    heap' := heap;

    // Go straight
    var dir := Dirs[e.dirIndex];
    var newPos := (e.position.0 + dir.0, e.position.1 + dir.1);
    if 0 <= newPos.0 < width && 0 <= newPos.1 < height {
      if maze[newPos.1][newPos.0] != '#' {
        heap' := heap' + [State(e.cost + 1, newPos, e.dirIndex)];
      }
    }

    // Turn left or right
    heap' := heap' + [State(e.cost + 1000, e.position, (e.dirIndex + 1) % 4)];
    heap' := heap' + [State(e.cost + 1000, e.position, (e.dirIndex + 3) % 4)];
  }

  /** `dijkstra`: the cheapest score of a route from the start, facing
      east, to the goal cell facing any way; None exactly when no route
      reaches the goal. The maze needs a first row: its width is read from it. */
  method Dijkstra(maze: Grid, goal: Pos, initial: Pos) returns (r: Option<nat>)
    requires IsGrid(maze)
    ensures r.Some? ==> ShortestToGoal(Edge(maze), (initial, 0), AtGoal(goal), r.value)
    ensures r.None? <==> !ReachesGoal(Edge(maze), (initial, 0), AtGoal(goal))
  {
    var cache: set<Key> := {};
    ghost var settled: map<Key, int> := map[];
    ghost var w := Edge(maze);
    var heap := [State(0, initial, 0)];
    InvInit(maze, w, goal, initial);
    while heap != []
      invariant Inv(maze, w, goal, initial, cache, settled, heap)
      decreases Unsettled(maze, initial, cache), |heap|
    {
      var k := Top(heap);
      var e := heap[k];
      if e.position == goal {
        PopAtGoal(maze, w, goal, initial, cache, settled, heap, k);
        return Some(e.cost);
      }
      if (e.position, e.dirIndex) in cache {
        PopSeen(maze, w, goal, initial, cache, settled, heap, k);
        heap := RemoveAt(heap, k);
        continue;
      }
      SettleStep(maze, w, goal, initial, cache, settled, heap, k);
      cache := cache + {KeyOf(e)};
      settled := settled[KeyOf(e) := e.cost];
      heap := Expand(maze, RemoveAt(heap, k), e);
    }
    assert Frontier([]) == {};
    DrainedGoal(w, (initial, 0), AtGoal(goal), settled);
    return None;
  }

  /** `part1`: the lowest score from S (facing east) to E; None is the
      "No path found" error. */
  method Part1(maze: Grid) returns (r: Option<nat>, initial: Pos, goal: Pos)
    requires IsGrid(maze)
    ensures LastInColumns(maze, 'S', initial, Width(maze), 0) && LastInColumns(maze, 'E', goal, Width(maze), 0)
    ensures r.Some? ==> ShortestToGoal(Edge(maze), (initial, 0), AtGoal(goal), r.value)
    ensures r.None? <==> !ReachesGoal(Edge(maze), (initial, 0), AtGoal(goal))
  {
    initial, goal := ScanColumns(maze, 'S', 'E');
    r := Dijkstra(maze, goal, initial);
  }

  // Part 2: the search that remembers where each state was reached from.

  /** `StateWithPrev`: the heap entry of `dijkstra2`. `prev` is the state
      that made the last step forward on the way here; quarter turns pass
      it on unchanged. */
  datatype StateWithPrev = StateWithPrev(cost: nat, position: Pos, dirIndex: nat, prev: Option<Key>)

  function Strip(e: StateWithPrev): State
  {
    State(e.cost, e.position, e.dirIndex)
  }

  /** `a > b` in Rust's order on `Option<((i32, i32), usize)>`: None is
      least, then the position, then the direction index. */
  predicate PrevGreater(a: Option<Key>, b: Option<Key>)
  {
    a.Some? && (b.None? || PosGreater(a.value.0, b.value.0) || (a.value.0 == b.value.0 && a.value.1 > b.value.1))
  }

  /** The pop order of `dijkstra2`: as in `dijkstra`, and then the greater
      `prev` first. */
  predicate BeforeWithPrev(a: StateWithPrev, b: StateWithPrev)
  {
    || Before(Strip(a), Strip(b))
    || (Strip(a) == Strip(b) && PrevGreater(a.prev, b.prev))
  }

  lemma BeforeWithPrevIsStrict()
    ensures StrictOrder(BeforeWithPrev)
  {
    forall a, b, c | BeforeWithPrev(a, b) && BeforeWithPrev(b, c) ensures BeforeWithPrev(a, c) {
      BeforeIsStrict();
    }
  }

  method TopWithPrev(heap: seq<StateWithPrev>) returns (k: nat)
    requires |heap| > 0
    ensures k < |heap| && forall j :: 0 <= j < |heap| ==> !BeforeWithPrev(heap[j], heap[k])
  {
    BeforeWithPrevIsStrict();
    k := IndexOfTop(heap, BeforeWithPrev);
  }

  ghost function TrackedFrontier(heap: seq<StateWithPrev>): set<(Key, int)>
  {
    set e | e in heap :: (KeyOf(Strip(e)), e.cost as int)
  }

  ghost predicate PopsCheapestWithPrev(heap: seq<StateWithPrev>, k: nat)
  {
    && k < |heap|
    && AtMost(TrackedFrontier(heap), heap[k].cost)
    && (KeyOf(Strip(heap[k])), heap[k].cost as int) in TrackedFrontier(heap)
    && TrackedFrontier(heap) - {(KeyOf(Strip(heap[k])), heap[k].cost as int)} <= TrackedFrontier(RemoveAt(heap, k))
    && TrackedFrontier(RemoveAt(heap, k)) <= TrackedFrontier(heap)
  }

  lemma PopTopWithPrev(heap: seq<StateWithPrev>, k: nat)
    requires k < |heap| && forall j :: 0 <= j < |heap| ==> !BeforeWithPrev(heap[j], heap[k])
    ensures PopsCheapestWithPrev(heap, k)
  {
    forall t, c | (t, c) in TrackedFrontier(heap) ensures heap[k].cost <= c {
      var x :| x in heap && (KeyOf(Strip(x)), x.cost as int) == (t, c);
      var j :| 0 <= j < |heap| && heap[j] == x;
    }
    forall pr | pr in TrackedFrontier(heap) - {(KeyOf(Strip(heap[k])), heap[k].cost as int)}
      ensures pr in TrackedFrontier(RemoveAt(heap, k))
    {
      var x :| x in heap && (KeyOf(Strip(x)), x.cost as int) == pr;
      assert x != heap[k];
      assert x in multiset(heap);
    }
  }

  /** What `dijkstra2` pushes after expanding `e`: the step forward
      remembers `e`'s state, the turns keep `e`'s `prev`. */
  function PushesWithPrev(maze: Grid, e: StateWithPrev): seq<StateWithPrev>
    requires IsGrid(maze) && e.dirIndex < 4
  {
    var ahead := Step(e.position, e.dirIndex);
    (if Open(maze, ahead) then [StateWithPrev(e.cost + 1, ahead, e.dirIndex, Some(KeyOf(Strip(e))))] else [])
    + [StateWithPrev(e.cost + 1000, e.position, Clockwise(e.dirIndex), e.prev),
       StateWithPrev(e.cost + 1000, e.position, Anticlockwise(e.dirIndex), e.prev)]
  }

  /** Without the `prev`s, `dijkstra2` pushes what `dijkstra` does. */
  lemma PushesWithPrevStrip(maze: Grid, e: StateWithPrev)
    requires IsGrid(maze) && e.dirIndex < 4
    ensures TrackedFrontier(PushesWithPrev(maze, e)) == Frontier(Pushes(maze, Strip(e)))
  {
    var a, b := PushesWithPrev(maze, e), Pushes(maze, Strip(e));
    assert |a| == |b| && forall i :: 0 <= i < |a| ==> Strip(a[i]) == b[i];
    forall pr | pr in TrackedFrontier(a) ensures pr in Frontier(b) {
      var x :| x in a && (KeyOf(Strip(x)), x.cost as int) == pr;
      var i :| 0 <= i < |a| && a[i] == x;
      assert b[i] in b;
    }
    forall pr | pr in Frontier(b) ensures pr in TrackedFrontier(a) {
      var x :| x in b && (KeyOf(x), x.cost as int) == pr;
      var i :| 0 <= i < |b| && b[i] == x;
      assert a[i] in a;
    }
  }

  /** `prevs.entry(key).or_default().push(prev)` when there is a `prev`:
      afterwards `key` lists `prev` besides what any key listed before. */
  function Record(prevs: map<Key, seq<Key>>, key: Key, prev: Option<Key>): (r: map<Key, seq<Key>>)
    ensures forall k, q :: k in r && q in r[k] <==> (k in prevs && q in prevs[k]) || (k == key && prev == Some(q))
  {
    match prev
    case None => prevs
    case Some(q) => prevs[key := (if key in prevs then prevs[key] else []) + [q]]
  }

  /** Each entry's `prev`, when it has one, lies on a route of the entry's
      cost to the entry's state. */
  ghost predicate PrevsOnRoutes(w: (Key, Key) -> int, src: Key, heap: seq<StateWithPrev>)
  {
    forall e :: e in heap && e.prev.Some? ==>
      exists p :: Route(w, src, p, KeyOf(Strip(e)), e.cost) && e.prev.value in p
  }

  /** Every state recorded as a way into k lies on a cheapest route to k. */
  ghost predicate PrevsCheapest(w: (Key, Key) -> int, src: Key, prevs: map<Key, seq<Key>>)
  {
    forall k, q :: k in prevs && q in prevs[k] ==> OnCheapest(w, src, q, k)
  }

  /** What holds each time `dijkstra2` pops. `settled` is `cache` read as
      the settled costs of the search. */
  ghost predicate TrackedInv(w: (Key, Key) -> int, src: Key, cache: map<Key, nat>, settled: map<Key, int>,
                             prevs: map<Key, seq<Key>>, heap: seq<StateWithPrev>)
  {
    QueueInv(w, src, cache, settled, heap) && PrevsCheapest(w, src, prevs)
  }

  /** The part of `TrackedInv` about the cache and the queue. */
  ghost predicate QueueInv(w: (Key, Key) -> int, src: Key, cache: map<Key, nat>, settled: map<Key, int>,
                           heap: seq<StateWithPrev>)
  {
    && cache.Keys == settled.Keys
    && (forall k :: k in cache ==> settled[k] == cache[k] as int)
    && (forall e :: e in heap ==> e.dirIndex < 4)
    && SearchInv(w, src, settled, TrackedFrontier(heap))
    && PrevsOnRoutes(w, src, heap)
  }

  lemma TrackedInit(w: (Key, Key) -> int, initial: Pos)
    ensures TrackedInv(w, (initial, 0), map[], map[], map[], [StateWithPrev(0, initial, 0, None)])
  {
    SearchStart(w, (initial, 0));
    assert TrackedFrontier([StateWithPrev(0, initial, 0, None)]) == {((initial, 0), 0)};
  }

  /** A stale pop (dearer than the cached cost) changes nothing but the heap. */
  lemma PopStale(w: (Key, Key) -> int, src: Key, cache: map<Key, nat>, settled: map<Key, int>,
                 prevs: map<Key, seq<Key>>, heap: seq<StateWithPrev>, k: nat)
    requires TrackedInv(w, src, cache, settled, prevs, heap)
    requires k < |heap| && forall j :: 0 <= j < |heap| ==> !BeforeWithPrev(heap[j], heap[k])
    requires KeyOf(Strip(heap[k])) in cache
    ensures TrackedInv(w, src, cache, settled, prevs, RemoveAt(heap, k))
  {
    PopTopWithPrev(heap, k);
    PopSettled(w, src, settled, TrackedFrontier(heap), KeyOf(Strip(heap[k])), heap[k].cost, TrackedFrontier(RemoveAt(heap, k)));
  }

  /** A pop that is the first of its state, or no dearer than the cached
      cost, is at the state's cheapest cost: the route that its `prev`
      lies on is a cheapest one. */
  lemma PrevIsCheapest(w: (Key, Key) -> int, src: Key, cache: map<Key, nat>, settled: map<Key, int>,
                       prevs: map<Key, seq<Key>>, heap: seq<StateWithPrev>, k: nat)
    requires TrackedInv(w, src, cache, settled, prevs, heap) && PopsCheapestWithPrev(heap, k)
    requires KeyOf(Strip(heap[k])) in cache ==> heap[k].cost <= cache[KeyOf(Strip(heap[k]))]
    ensures heap[k].prev.Some? ==> OnCheapest(w, src, heap[k].prev.value, KeyOf(Strip(heap[k])))
  {
    var e := heap[k];
    var key := KeyOf(Strip(e));
    if e.prev.Some? {
      assert e in heap;
      var p :| Route(w, src, p, key, e.cost) && e.prev.value in p;
      if key in settled {
        SettledCheapest(w, src, settled, p, key, e.cost);
      } else {
        PopCheapest(w, src, settled, TrackedFrontier(heap), key, e.cost);
      }
      assert CheapestRoute(w, src, p, key);
    }
  }

  /** Each entry `dijkstra2` pushes after expanding `e` is a move out of
      `e`'s state, at `e`'s cost plus the move's, and its `prev` is `e`'s
      state or `e`'s own `prev`. */
  lemma PushesWithPrevAreMoves(maze: Grid, w: (Key, Key) -> int, e: StateWithPrev)
    requires IsGrid(maze) && w == Edge(maze) && e.dirIndex < 4
    ensures forall x :: x in PushesWithPrev(maze, e) ==>
              && w(KeyOf(Strip(e)), KeyOf(Strip(x))) >= 0
              && x.cost == e.cost + w(KeyOf(Strip(e)), KeyOf(Strip(x)))
              && (x.prev == e.prev || x.prev == Some(KeyOf(Strip(e))))
              && x.dirIndex < 4
  {
    var pushes := PushesWithPrev(maze, e);
    forall x | x in pushes
      ensures w(KeyOf(Strip(e)), KeyOf(Strip(x))) >= 0 && x.cost == e.cost + w(KeyOf(Strip(e)), KeyOf(Strip(x)))
    {
      var i :| 0 <= i < |pushes| && pushes[i] == x;
      assert Strip(x) == Pushes(maze, Strip(e))[i];
      PushIsMove(maze, Strip(e), Strip(x));
    }
    PushesWithPrevLinks(maze, e);
  }

  lemma PushesWithPrevLinks(maze: Grid, e: StateWithPrev)
    requires IsGrid(maze) && e.dirIndex < 4
    ensures forall x :: x in PushesWithPrev(maze, e) ==>
              (x.prev == e.prev || x.prev == Some(KeyOf(Strip(e)))) && x.dirIndex < 4
  {
  }

  /** Entries that are moves out of `e`, given a route to `e` through its
      `prev`, have routes of their costs through their own `prev`s. */
  lemma PushesOnRoutes(w: (Key, Key) -> int, src: Key, e: StateWithPrev, pushes: seq<StateWithPrev>, p: seq<Key>)
    requires Route(w, src, p, KeyOf(Strip(e)), e.cost) && (e.prev.Some? ==> e.prev.value in p)
    requires forall x :: x in pushes ==>
               && w(KeyOf(Strip(e)), KeyOf(Strip(x))) >= 0
               && x.cost == e.cost + w(KeyOf(Strip(e)), KeyOf(Strip(x)))
               && (x.prev == e.prev || x.prev == Some(KeyOf(Strip(e))))
    ensures PrevsOnRoutes(w, src, pushes)
    ensures Witnessed(w, src, TrackedFrontier(pushes))
  {
    forall x | x in pushes
      ensures Route(w, src, p + [KeyOf(Strip(x))], KeyOf(Strip(x)), x.cost)
      ensures x.prev.Some? ==> x.prev.value in p + [KeyOf(Strip(x))]
    {
      Extend(w, src, p, KeyOf(Strip(e)), e.cost, KeyOf(Strip(x)));
    }
  }

  /** The search half of a recording pop: the first pop of a state settles
      it, a repeat at the settled cost only re-offers its moves. */
  lemma TrackedSearch(w: (Key, Key) -> int, src: Key, settled: map<Key, int>, heap: seq<StateWithPrev>, k: nat,
                      pushes: seq<StateWithPrev>)
    requires SearchInv(w, src, settled, TrackedFrontier(heap)) && PopsCheapestWithPrev(heap, k)
    requires KeyOf(Strip(heap[k])) in settled ==> heap[k].cost <= settled[KeyOf(Strip(heap[k]))]
    requires Witnessed(w, src, TrackedFrontier(pushes))
    requires Offers(w, KeyOf(Strip(heap[k])), heap[k].cost, TrackedFrontier(pushes))
    ensures SearchInv(w, src,
                      if KeyOf(Strip(heap[k])) in settled then settled else settled[KeyOf(Strip(heap[k])) := heap[k].cost],
                      TrackedFrontier(RemoveAt(heap, k) + pushes))
  {
    var e := heap[k];
    var key := KeyOf(Strip(e));
    var rest := TrackedFrontier(RemoveAt(heap, k));
    if key in settled {
      PopSettled(w, src, settled, TrackedFrontier(heap), key, e.cost, rest);
      PushMore(w, src, settled, rest, TrackedFrontier(pushes));
    } else {
      PopAndSettle(w, src, settled, TrackedFrontier(heap), key, e.cost, rest, TrackedFrontier(pushes));
    }
    assert TrackedFrontier(RemoveAt(heap, k) + pushes) == rest + TrackedFrontier(pushes);
  }

  /** A pop that `dijkstra2` records: its state is cached if new, its
      `prev` recorded and its moves pushed, and the invariant holds again. */
  lemma PopRecord(maze: Grid, w: (Key, Key) -> int, src: Key, cache: map<Key, nat>, settled: map<Key, int>,
                  prevs: map<Key, seq<Key>>, heap: seq<StateWithPrev>, k: nat)
    requires IsGrid(maze) && w == Edge(maze) && TrackedInv(w, src, cache, settled, prevs, heap)
    requires k < |heap| && forall j :: 0 <= j < |heap| ==> !BeforeWithPrev(heap[j], heap[k])
    requires KeyOf(Strip(heap[k])) in cache ==> heap[k].cost <= cache[KeyOf(Strip(heap[k]))]
    ensures heap[k].dirIndex < 4
    ensures TrackedInv(w, src,
                       if KeyOf(Strip(heap[k])) in cache then cache else cache[KeyOf(Strip(heap[k])) := heap[k].cost],
                       if KeyOf(Strip(heap[k])) in cache then settled else settled[KeyOf(Strip(heap[k])) := heap[k].cost],
                       Record(prevs, KeyOf(Strip(heap[k])), heap[k].prev),
                       RemoveAt(heap, k) + PushesWithPrev(maze, heap[k]))
  {
    var e := heap[k];
    assert e in heap;
    PopTopWithPrev(heap, k);
    var pushes := PushesWithPrev(maze, e);
    PushesWithPrevAreMoves(maze, w, e);
    PushesWithPrevOffer(maze, w, e);
    RecordStep(w, src, cache, settled, prevs, heap, k, pushes);
  }

  /** The pushes after expanding `e` offer exactly its moves. */
  lemma PushesWithPrevOffer(maze: Grid, w: (Key, Key) -> int, e: StateWithPrev)
    requires IsGrid(maze) && w == Edge(maze) && e.dirIndex < 4
    ensures Offers(w, KeyOf(Strip(e)), e.cost, TrackedFrontier(PushesWithPrev(maze, e)))
  {
    PushesWithPrevStrip(maze, e);
    PushesAreEdges(maze, w, Strip(e));
  }

  /** `PopRecord` for any moves `w`, given what the pushes offer. */
  lemma RecordStep(w: (Key, Key) -> int, src: Key, cache: map<Key, nat>, settled: map<Key, int>,
                   prevs: map<Key, seq<Key>>, heap: seq<StateWithPrev>, k: nat, pushes: seq<StateWithPrev>)
    requires TrackedInv(w, src, cache, settled, prevs, heap) && PopsCheapestWithPrev(heap, k)
    requires KeyOf(Strip(heap[k])) in cache ==> heap[k].cost <= cache[KeyOf(Strip(heap[k]))]
    requires forall x :: x in pushes ==>
               && w(KeyOf(Strip(heap[k])), KeyOf(Strip(x))) >= 0
               && x.cost == heap[k].cost + w(KeyOf(Strip(heap[k])), KeyOf(Strip(x)))
               && (x.prev == heap[k].prev || x.prev == Some(KeyOf(Strip(heap[k]))))
               && x.dirIndex < 4
    requires Offers(w, KeyOf(Strip(heap[k])), heap[k].cost, TrackedFrontier(pushes))
    ensures TrackedInv(w, src,
                       if KeyOf(Strip(heap[k])) in cache then cache else cache[KeyOf(Strip(heap[k])) := heap[k].cost],
                       if KeyOf(Strip(heap[k])) in cache then settled else settled[KeyOf(Strip(heap[k])) := heap[k].cost],
                       Record(prevs, KeyOf(Strip(heap[k])), heap[k].prev),
                       RemoveAt(heap, k) + pushes)
  {
    RecordPrev(w, src, cache, settled, prevs, heap, k);
    QueueStep(w, src, cache, settled, heap, k, pushes);
  }

  /** The cache, the settled costs and the queue after the pop, as
      `RecordStep` needs them. */
  lemma QueueStep(w: (Key, Key) -> int, src: Key, cache: map<Key, nat>, settled: map<Key, int>,
                  heap: seq<StateWithPrev>, k: nat, pushes: seq<StateWithPrev>)
    requires cache.Keys == settled.Keys && (forall k :: k in cache ==> settled[k] == cache[k] as int)
    requires (forall e :: e in heap ==> e.dirIndex < 4) && PrevsOnRoutes(w, src, heap)
    requires SearchInv(w, src, settled, TrackedFrontier(heap)) && PopsCheapestWithPrev(heap, k)
    requires KeyOf(Strip(heap[k])) in cache ==> heap[k].cost <= cache[KeyOf(Strip(heap[k]))]
    requires forall x :: x in pushes ==>
               && w(KeyOf(Strip(heap[k])), KeyOf(Strip(x))) >= 0
               && x.cost == heap[k].cost + w(KeyOf(Strip(heap[k])), KeyOf(Strip(x)))
               && (x.prev == heap[k].prev || x.prev == Some(KeyOf(Strip(heap[k]))))
               && x.dirIndex < 4
    requires Offers(w, KeyOf(Strip(heap[k])), heap[k].cost, TrackedFrontier(pushes))
    ensures var key := KeyOf(Strip(heap[k]));
            var cache' := if key in cache then cache else cache[key := heap[k].cost];
            var settled' := if key in cache then settled else settled[key := heap[k].cost];
            QueueInv(w, src, cache', settled', RemoveAt(heap, k) + pushes)
  {
    var e := heap[k];
    PushedOnRoutes(w, src, heap, k, pushes);
    CachedSearch(w, src, cache, settled, heap, k, pushes);
    CacheStep(cache, settled, KeyOf(Strip(e)), e.cost);
  }

  /** `TrackedSearch` with the settled costs updated where the cache is. */
  lemma CachedSearch(w: (Key, Key) -> int, src: Key, cache: map<Key, nat>, settled: map<Key, int>,
                      heap: seq<StateWithPrev>, k: nat, pushes: seq<StateWithPrev>)
    requires cache.Keys == settled.Keys && (forall k :: k in cache ==> settled[k] == cache[k] as int)
    requires SearchInv(w, src, settled, TrackedFrontier(heap)) && PopsCheapestWithPrev(heap, k)
    requires KeyOf(Strip(heap[k])) in cache ==> heap[k].cost <= cache[KeyOf(Strip(heap[k]))]
    requires Witnessed(w, src, TrackedFrontier(pushes))
    requires Offers(w, KeyOf(Strip(heap[k])), heap[k].cost, TrackedFrontier(pushes))
    ensures var key := KeyOf(Strip(heap[k]));
            var settled' := if key in cache then settled else settled[key := heap[k].cost];
            SearchInv(w, src, settled', TrackedFrontier(RemoveAt(heap, k) + pushes))
  {
    TrackedSearch(w, src, settled, heap, k, pushes);
  }

  /** The popped entry's `prev` may be recorded: `prevs` stays sound. */
  lemma RecordPrev(w: (Key, Key) -> int, src: Key, cache: map<Key, nat>, settled: map<Key, int>,
                   prevs: map<Key, seq<Key>>, heap: seq<StateWithPrev>, k: nat)
    requires TrackedInv(w, src, cache, settled, prevs, heap) && PopsCheapestWithPrev(heap, k)
    requires KeyOf(Strip(heap[k])) in cache ==> heap[k].cost <= cache[KeyOf(Strip(heap[k]))]
    ensures PrevsCheapest(w, src, Record(prevs, KeyOf(Strip(heap[k])), heap[k].prev))
  {
    PrevIsCheapest(w, src, cache, settled, prevs, heap, k);
    RecordCheapest(w, src, prevs, KeyOf(Strip(heap[k])), heap[k].prev);
  }

  /** Caching a new key at a cost settles it at the same cost. */
  lemma CacheStep(cache: map<Key, nat>, settled: map<Key, int>, key: Key, cost: nat)
    requires cache.Keys == settled.Keys && forall k :: k in cache ==> settled[k] == cache[k] as int
    ensures var cache' := if key in cache then cache else cache[key := cost];
            var settled' := if key in settled then settled else settled[key := cost];
            cache'.Keys == settled'.Keys && forall k :: k in cache' ==> settled'[k] == cache'[k] as int
  {
  }

  /** Recording a `prev` that lies on a cheapest route keeps `prevs` sound. */
  lemma RecordCheapest(w: (Key, Key) -> int, src: Key, prevs: map<Key, seq<Key>>, key: Key, prev: Option<Key>)
    requires PrevsCheapest(w, src, prevs)
    requires prev.Some? ==> OnCheapest(w, src, prev.value, key)
    ensures PrevsCheapest(w, src, Record(prevs, key, prev))
  {
  }

  /** After the pop, every queued entry still has a route through its `prev`. */
  lemma PushedOnRoutes(w: (Key, Key) -> int, src: Key, heap: seq<StateWithPrev>, k: nat, pushes: seq<StateWithPrev>)
    requires k < |heap| && PrevsOnRoutes(w, src, heap) && Witnessed(w, src, TrackedFrontier(heap))
    requires forall x :: x in heap ==> x.dirIndex < 4
    requires forall x :: x in pushes ==>
               && w(KeyOf(Strip(heap[k])), KeyOf(Strip(x))) >= 0
               && x.cost == heap[k].cost + w(KeyOf(Strip(heap[k])), KeyOf(Strip(x)))
               && (x.prev == heap[k].prev || x.prev == Some(KeyOf(Strip(heap[k]))))
               && x.dirIndex < 4
    ensures PrevsOnRoutes(w, src, RemoveAt(heap, k) + pushes)
    ensures forall x :: x in RemoveAt(heap, k) + pushes ==> x.dirIndex < 4
    ensures Witnessed(w, src, TrackedFrontier(pushes))
  {
    var e := heap[k];
    var key := KeyOf(Strip(e));
    assert e in heap;
    assert (key, e.cost as int) in TrackedFrontier(heap);
    var p: seq<Key>;
    if e.prev.Some? {
      p :| Route(w, src, p, key, e.cost) && e.prev.value in p;
    } else {
      p :| Route(w, src, p, key, e.cost);
    }
    PushesOnRoutes(w, src, e, pushes, p);
    var heap' := RemoveAt(heap, k) + pushes;
    assert forall x :: x in heap' ==> x in heap || x in pushes;
  }

  /** The pushes after expanding `e` in `dijkstra2`. */
  method ExpandWithPrev(maze: Grid, heap: seq<StateWithPrev>, e: StateWithPrev) returns (heap': seq<StateWithPrev>)
    requires IsGrid(maze) && e.dirIndex < 4
    ensures heap' == heap + PushesWithPrev(maze, e)
  {
    var height := |maze|;
    var width := |maze[0]|;
    heap' := heap;

    // Go straight
    var dir := Dirs[e.dirIndex];
    var newPos := (e.position.0 + dir.0, e.position.1 + dir.1);
    if 0 <= newPos.0 < width && 0 <= newPos.1 < height {
      if maze[newPos.1][newPos.0] != '#' {
        heap' := heap' + [StateWithPrev(e.cost + 1, newPos, e.dirIndex, Some((e.position, e.dirIndex)))];
      }
    }

    // Turn left or right
    heap' := heap' + [StateWithPrev(e.cost + 1000, e.position, (e.dirIndex + 1) % 4, e.prev)];
    heap' := heap' + [StateWithPrev(e.cost + 1000, e.position, (e.dirIndex + 3) % 4, e.prev)];
  }

  /** The search loop of `dijkstra2`, for at most `fuel` pops: the `prevs`
      it returns record, for each state, states on cheapest routes to it. */
  method SearchWithPrevs(maze: Grid, goal: Pos, initial: Pos, fuel: nat) returns (prevs: map<Key, seq<Key>>)
    requires IsGrid(maze)
    ensures PrevsCheapest(Edge(maze), (initial, 0), prevs)
  {
    prevs := map[];
    var cache: map<Key, nat> := map[];
    ghost var settled: map<Key, int> := map[];
    ghost var w := Edge(maze);
    var heap := [StateWithPrev(0, initial, 0, None)];
    TrackedInit(w, initial);
    var budget := fuel;
    while heap != [] && budget > 0
      invariant TrackedInv(w, (initial, 0), cache, settled, prevs, heap)
      decreases budget
    {
      budget := budget - 1;
      var k := TopWithPrev(heap);
      var e := heap[k];
      var key := (e.position, e.dirIndex);
      if key in cache {
        if e.cost > cache[key] {
          if e.position == goal {
            break;
          } else {
            PopStale(w, (initial, 0), cache, settled, prevs, heap, k);
            heap := RemoveAt(heap, k);
            continue;
          }
        }
      }
      PopRecord(maze, w, (initial, 0), cache, settled, prevs, heap, k);
      if key !in cache {
        cache := cache[key := e.cost];
        settled := settled[key := e.cost];
      }
      prevs := Record(prevs, key, e.prev);
      heap := ExpandWithPrev(maze, RemoveAt(heap, k), e);
    }
  }

  /** Some cheapest route from the start to the goal cell, facing some
      way, passes through state s. */
  ghost predicate OnBestPath(w: (Key, Key) -> int, src: Key, goal: Pos, s: Key)
  {
    exists t: Key :: t.0 == goal && OnCheapest(w, src, s, t)
  }

  /** A cell the back-walk may count: the goal itself, or the cell of a
      state on a cheapest route to a goal state. */
  ghost predicate BestTile(w: (Key, Key) -> int, src: Key, goal: Pos, p: Pos)
  {
    p == goal || exists d :: OnBestPath(w, src, goal, (p, d))
  }

  /** The cells of all recorded `prev` states. */
  ghost function RecordedCells(prevs: map<Key, seq<Key>>): set<Pos>
  {
    set k, q | k in prevs && q in prevs[k] :: q.0
  }

  /** A recorded way into a goal state, or into a state on a cheapest
      route to one, is itself on a cheapest route to a goal state. */
  lemma PrevOnBestPath(w: (Key, Key) -> int, src: Key, goal: Pos, prevs: map<Key, seq<Key>>, s: Key, q: Key)
    requires PrevsCheapest(w, src, prevs) && s in prevs && q in prevs[s]
    requires s.0 == goal || OnBestPath(w, src, goal, s)
    ensures OnBestPath(w, src, goal, q)
  {
    if s.0 == goal {
      assert OnCheapest(w, src, q, s);
    } else {
      var t: Key :| t.0 == goal && OnCheapest(w, src, s, t);
      CheapestThrough(w, src, q, s, t);
    }
  }

  /** A state the back-walk may still pop: its cell is among `cells`, and
      it is a goal state or on a cheapest route to one. */
  ghost predicate Pending(w: (Key, Key) -> int, src: Key, goal: Pos, cells: set<Pos>, s: Key)
  {
    s.0 in cells && (s.0 == goal || OnBestPath(w, src, goal, s))
  }

  ghost predicate AllPending(w: (Key, Key) -> int, src: Key, goal: Pos, cells: set<Pos>, stack: seq<Key>)
  {
    forall i :: 0 <= i < |stack| ==> Pending(w, src, goal, cells, stack[i])
  }

  ghost predicate AllBest(w: (Key, Key) -> int, src: Key, goal: Pos, seen: set<Pos>)
  {
    forall p :: p in seen ==> BestTile(w, src, goal, p)
  }

  /** The `prev`s of a popped pending state are pending too. */
  lemma PushPending(w: (Key, Key) -> int, src: Key, goal: Pos, prevs: map<Key, seq<Key>>, stack: seq<Key>, s: Key)
    requires PrevsCheapest(w, src, prevs) && s in prevs
    requires Pending(w, src, goal, RecordedCells(prevs) + {goal}, s)
    requires AllPending(w, src, goal, RecordedCells(prevs) + {goal}, stack)
    ensures AllPending(w, src, goal, RecordedCells(prevs) + {goal}, stack + prevs[s])
  {
    var cells := RecordedCells(prevs) + {goal};
    var all := stack + prevs[s];
    forall i | 0 <= i < |all| ensures Pending(w, src, goal, cells, all[i]) {
      if i >= |stack| {
        var q := prevs[s][i - |stack|];
        assert q == all[i];
        PrevOnBestPath(w, src, goal, prevs, s, q);
      }
    }
  }

  /** Popping the top of a pending stack leaves a pending stack and a
      pending state. */
  lemma PopPending(w: (Key, Key) -> int, src: Key, goal: Pos, cells: set<Pos>, stack: seq<Key>)
    requires stack != [] && AllPending(w, src, goal, cells, stack)
    ensures AllPending(w, src, goal, cells, stack[..|stack| - 1])
    ensures Pending(w, src, goal, cells, stack[|stack| - 1])
  {
  }

  /** Counting the cell of a pending state keeps every counted cell a best tile. */
  lemma CountPending(w: (Key, Key) -> int, src: Key, goal: Pos, cells: set<Pos>, seen: set<Pos>, s: Key)
    requires AllBest(w, src, goal, seen) && Pending(w, src, goal, cells, s)
    ensures AllBest(w, src, goal, seen + {s.0})
  {
    assert s == (s.0, s.1);
  }

  ghost function Uncounted(cells: set<Pos>, seen: set<Pos>): nat
  {
    |cells - seen|
  }

  lemma CountOne(cells: set<Pos>, seen: set<Pos>, p: Pos)
    requires p in cells && p !in seen
    ensures Uncounted(cells, seen + {p}) < Uncounted(cells, seen)
  {
    assert (cells - seen) - {p} == cells - (seen + {p});
  }

  /** `for prev_pos in prev_poses { back_stack.push(*prev_pos) }` */
  method PushAll(stack: seq<Key>, xs: seq<Key>) returns (stack': seq<Key>)
    ensures stack' == stack + xs
  {
    stack' := stack;
    for i := 0 to |xs|
      invariant stack' == stack + xs[..i]
    {
      stack' := stack' + [xs[i]];
    }
  }

  /** The back-walk of `dijkstra2`: from the four goal states, follow the
      recorded `prev`s, counting each cell once. Every counted cell is the
      goal or lies on a cheapest route to a goal state. */
  method WalkBack(ghost w: (Key, Key) -> int, ghost src: Key, goal: Pos, prevs: map<Key, seq<Key>>)
    returns (backSeen: set<Pos>)
    requires PrevsCheapest(w, src, prevs)
    ensures goal in backSeen
    ensures AllBest(w, src, goal, backSeen)
  {
    var backStack: seq<Key> := [(goal, 0), (goal, 1), (goal, 2), (goal, 3)];
    backSeen := {};
    ghost var cells := RecordedCells(prevs) + {goal};
    assert AllPending(w, src, goal, cells, backStack);
    while backStack != []
      invariant AllPending(w, src, goal, cells, backStack)
      invariant backSeen <= cells
      invariant AllBest(w, src, goal, backSeen)
      invariant goal in backSeen || (|backStack| == 4 && backStack[3] == (goal, 3))
      decreases Uncounted(cells, backSeen), |backStack|
    {
      PopPending(w, src, goal, cells, backStack);
      var backPos := backStack[|backStack| - 1];
      backStack := backStack[..|backStack| - 1];
      if backPos.0 in backSeen {
        continue;
      }
      CountOne(cells, backSeen, backPos.0);
      CountPending(w, src, goal, cells, backSeen, backPos);
      backSeen := backSeen + {backPos.0};

      if backPos in prevs {
        PushPending(w, src, goal, prevs, backStack, backPos);
        backStack := PushAll(backStack, prevs[backPos]);
      }
    }
  }

  /** `dijkstra2`, for at most `fuel` pops of its search: the number of
      cells the back-walk counts. The goal is always counted, and every
      counted cell is the goal or lies on a cheapest route from the start
      to the goal cell facing some way. */
  method Dijkstra2(maze: Grid, goal: Pos, initial: Pos, fuel: nat) returns (r: Option<nat>, ghost tiles: set<Pos>)
    requires IsGrid(maze)
    ensures r == Some(|tiles|) && r.value >= 1 && goal in tiles
    ensures AllBest(Edge(maze), (initial, 0), goal, tiles)
  {
    var prevs := SearchWithPrevs(maze, goal, initial, fuel);
    var backSeen := WalkBack(Edge(maze), (initial, 0), goal, prevs);
    assert backSeen == (backSeen - {goal}) + {goal};
    tiles := backSeen;
    r := Some(|backSeen|);
  }

  /** `part2`: S and E are found as in `part1`, then `dijkstra2` counts the
      tiles; its result is never None. */
  method Part2(maze: Grid, fuel: nat) returns (r: Option<nat>, initial: Pos, goal: Pos, ghost tiles: set<Pos>)
    requires IsGrid(maze)
    ensures LastInColumns(maze, 'S', initial, Width(maze), 0) && LastInColumns(maze, 'E', goal, Width(maze), 0)
    ensures r == Some(|tiles|) && r.value >= 1 && goal in tiles
    ensures AllBest(Edge(maze), (initial, 0), goal, tiles)
  {
    initial, goal := ScanColumns(maze, 'S', 'E');
    r, tiles := Dijkstra2(maze, goal, initial, fuel);
  }
}
