/** Day 18, "RAM Run": breadth-first search across a size × size memory
    space from (0, 0) to (size - 1, size - 1) around corrupted cells, and
    the search for the first falling byte that cuts the exit off. */
module Day18 {
  import opened Common
  import opened Paths

  /** In the square and not corrupted: where `bfs` may step to. */
  predicate Free(corruptions: set<Pos>, size: nat, q: Pos)
  {
    0 <= q.0 < size && 0 <= q.1 < size && q !in corruptions
  }

  /** The moves `bfs` makes: one step to a free neighbour, cost 1. The
      cell moved from is never checked, so the start may be corrupted. */
  function Edge(corruptions: set<Pos>, size: nat): (Pos, Pos) -> int
  {
    (p: Pos, q: Pos) => if Adjacent(p, q) && Free(corruptions, size, q) then 1 else -1
  }

  const Origin: Pos := (0, 0)

  function Exit(size: nat): Pos
  {
    (size - 1, size - 1)
  }

  /** Some route leads from the origin to the exit. */
  ghost predicate Reachable(corruptions: set<Pos>, size: nat)
  {
    exists p :: IsPath(Edge(corruptions, size), p) && p[0] == Origin && p[|p| - 1] == Exit(size)
  }

  /** A `VecDeque` element: a position and the steps taken to reach it. */
  datatype Entry = Entry(pos: Pos, cost: nat)

  ghost function Frontier(queue: seq<Entry>): set<(Pos, int)>
  {
    set e | e in queue :: (e.pos, e.cost as int)
  }

  /** The FIFO discipline: costs never decrease from front to back and
      differ by at most one. */
  ghost predicate Layered(queue: seq<Entry>)
  {
    && (forall i, j :: 0 <= i <= j < |queue| ==> queue[i].cost <= queue[j].cost)
    && (forall i :: 0 <= i < |queue| ==> queue[i].cost <= queue[0].cost + 1)
  }

  function Square(size: nat): (cells: set<Pos>)
    ensures forall q :: q in cells <==> 0 <= q.0 < size && 0 <= q.1 < size
  {
    set x, y | 0 <= x < size && 0 <= y < size :: (x, y)
  }

  /** The entry `bfs` pushes for direction d from `e`, if any. */
  function PushFor(corruptions: set<Pos>, size: nat, e: Entry, d: nat): seq<Entry>
    requires d < 4
  {
    var next := Step(e.pos, d);
    if Free(corruptions, size, next) then [Entry(next, e.cost + 1)] else []
  }

  /** The entries pushed for the first n directions of `DIRS`. */
  function PushesUpTo(corruptions: set<Pos>, size: nat, e: Entry, n: nat): seq<Entry>
    requires n <= 4
  {
    if n == 0 then [] else PushesUpTo(corruptions, size, e, n - 1) + PushFor(corruptions, size, e, n - 1)
  }

  lemma PushesFacts(corruptions: set<Pos>, size: nat, e: Entry, n: nat)
    requires n <= 4
    ensures forall x :: x in PushesUpTo(corruptions, size, e, n) ==>
              x.cost == e.cost + 1 && Free(corruptions, size, x.pos) && exists k :: 0 <= k < n && x.pos == Step(e.pos, k)
    ensures forall k :: 0 <= k < n && Free(corruptions, size, Step(e.pos, k)) ==>
              Entry(Step(e.pos, k), e.cost + 1) in PushesUpTo(corruptions, size, e, n)
  {
    PushesSound(corruptions, size, e, n);
    PushesComplete(corruptions, size, e, n);
  }

  lemma {:induction false} PushesSound(corruptions: set<Pos>, size: nat, e: Entry, n: nat)
    requires n <= 4
    ensures forall x :: x in PushesUpTo(corruptions, size, e, n) ==>
              x.cost == e.cost + 1 && Free(corruptions, size, x.pos) && exists k :: 0 <= k < n && x.pos == Step(e.pos, k)
  {
    if n > 0 {
      PushesSound(corruptions, size, e, n - 1);
      forall x | x in PushFor(corruptions, size, e, n - 1)
        ensures x.cost == e.cost + 1 && Free(corruptions, size, x.pos) && x.pos == Step(e.pos, n - 1)
      {
      }
    }
  }

  lemma {:induction false} PushesComplete(corruptions: set<Pos>, size: nat, e: Entry, n: nat)
    requires n <= 4
    ensures forall k :: 0 <= k < n && Free(corruptions, size, Step(e.pos, k)) ==>
              Entry(Step(e.pos, k), e.cost + 1) in PushesUpTo(corruptions, size, e, n)
  {
    if n > 0 {
      PushesComplete(corruptions, size, e, n - 1);
    }
  }

  /** What holds each time `bfs` tests whether the queue is empty. */
  ghost predicate Inv(corruptions: set<Pos>, size: nat, seen: set<Pos>, settled: map<Pos, int>, queue: seq<Entry>)
  {
    && seen == settled.Keys
    && seen <= Square(size) + {Origin}
    && (forall e :: e in queue ==> e.pos in Square(size) + {Origin})
    && Exit(size) !in settled
    && SearchInv(Edge(corruptions, size), Origin, settled, Frontier(queue))
    && Layered(queue)
  }

  lemma InvInit(corruptions: set<Pos>, size: nat)
    ensures Inv(corruptions, size, {}, map[], [Entry(Origin, 0)])
  {
    SearchStart(Edge(corruptions, size), Origin);
    assert Frontier([Entry(Origin, 0)]) == {(Origin, 0)};
  }

  /** The front of a layered queue is its cheapest entry. */
  lemma FrontCheapest(queue: seq<Entry>)
    requires queue != [] && Layered(queue)
    ensures AtMost(Frontier(queue), queue[0].cost)
    ensures (queue[0].pos, queue[0].cost as int) in Frontier(queue)
  {
    forall t, c | (t, c) in Frontier(queue) ensures queue[0].cost <= c {
      var x :| x in queue && (x.pos, x.cost as int) == (t, c);
    }
  }

  /** Removing the front of the queue removes at most its pair from the frontier. */
  lemma FrontierTail(queue: seq<Entry>)
    requires queue != []
    ensures Frontier(queue) - {(queue[0].pos, queue[0].cost as int)} <= Frontier(queue[1..]) <= Frontier(queue)
  {
    assert queue == [queue[0]] + queue[1..];
  }

  /** Popping the exit: its cost is that of a shortest route. */
  lemma AtExit(corruptions: set<Pos>, size: nat, seen: set<Pos>, settled: map<Pos, int>, queue: seq<Entry>)
    requires Inv(corruptions, size, seen, settled, queue) && queue != [] && queue[0].pos == Exit(size)
    ensures Shortest(Edge(corruptions, size), Origin, Exit(size), queue[0].cost) && Reachable(corruptions, size)
  {
    FrontCheapest(queue);
    PopCheapest(Edge(corruptions, size), Origin, settled, Frontier(queue), queue[0].pos, queue[0].cost);
  }

  /** Popping an already-seen position changes nothing else. */
  lemma SkipStale(corruptions: set<Pos>, size: nat, seen: set<Pos>, settled: map<Pos, int>, queue: seq<Entry>)
    requires Inv(corruptions, size, seen, settled, queue) && queue != [] && queue[0].pos in seen
    ensures Inv(corruptions, size, seen, settled, queue[1..])
  {
    var e, rest := queue[0], queue[1..];
    FrontierTail(queue);
    PopSettled(Edge(corruptions, size), Origin, settled, Frontier(queue), e.pos, e.cost, Frontier(rest));
    assert Layered(rest) by {
      forall i, j | 0 <= i <= j < |rest| ensures rest[i].cost <= rest[j].cost {
        assert rest[i] == queue[i + 1] && rest[j] == queue[j + 1];
      }
      forall i | 0 <= i < |rest| ensures rest[i].cost <= rest[0].cost + 1 {
        assert rest[i] == queue[i + 1] && rest[0] == queue[1];
      }
    }
  }

  lemma PushedLayered(corruptions: set<Pos>, size: nat, queue: seq<Entry>)
    requires queue != [] && Layered(queue)
    ensures Layered(queue[1..] + PushesUpTo(corruptions, size, queue[0], 4))
  {
    var e, rest := queue[0], queue[1..];
    var pushes := PushesUpTo(corruptions, size, e, 4);
    var queue' := rest + pushes;
    PushesFacts(corruptions, size, e, 4);
    forall i, j | 0 <= i <= j < |queue'| ensures queue'[i].cost <= queue'[j].cost {
      if j < |rest| {
        assert queue'[i] == queue[i + 1] && queue'[j] == queue[j + 1];
      } else if i < |rest| {
        assert queue'[i] == queue[i + 1];
        assert queue'[j] in pushes;
      } else {
        assert queue'[i] in pushes && queue'[j] in pushes;
      }
    }
    forall i | 0 <= i < |queue'| ensures queue'[i].cost <= queue'[0].cost + 1 {
      if i < |rest| {
        assert queue'[i] == queue[i + 1];
      } else {
        assert queue'[i] in pushes;
      }
      if |rest| > 0 {
        assert queue'[0] == queue[1];
      } else {
        assert queue'[0] in pushes;
      }
    }
  }

  /** The pushed entries offer exactly the moves out of the popped position. */
  lemma PushesAreEdges(corruptions: set<Pos>, size: nat, e: Entry)
    ensures var w := Edge(corruptions, size);
            var pushed := Frontier(PushesUpTo(corruptions, size, e, 4));
            && (forall t :: w(e.pos, t) >= 0 ==> (t, e.cost + w(e.pos, t)) in pushed)
            && (forall t, d :: (t, d) in pushed ==> w(e.pos, t) >= 0 && d == e.cost + w(e.pos, t))
  {
    var w := Edge(corruptions, size);
    var pushes := PushesUpTo(corruptions, size, e, 4);
    PushesFacts(corruptions, size, e, 4);
    forall t | w(e.pos, t) >= 0 ensures (t, e.cost + w(e.pos, t)) in Frontier(pushes) {
      var k :| 0 <= k < 4 && t == Step(e.pos, k);
      assert Entry(t, e.cost + 1) in pushes;
    }
    forall t, d | (t, d) in Frontier(pushes) ensures w(e.pos, t) >= 0 && d == e.cost + w(e.pos, t) {
      var x :| x in pushes && (x.pos, x.cost as int) == (t, d);
      var k :| 0 <= k < 4 && x.pos == Step(e.pos, k);
    }
  }

  lemma PushedInSquare(corruptions: set<Pos>, size: nat, queue: seq<Entry>)
    requires queue != [] && forall e :: e in queue ==> e.pos in Square(size) + {Origin}
    ensures forall x :: x in queue[1..] + PushesUpTo(corruptions, size, queue[0], 4) ==> x.pos in Square(size) + {Origin}
  {
    PushesFacts(corruptions, size, queue[0], 4);
    forall x | x in queue[1..] + PushesUpTo(corruptions, size, queue[0], 4) ensures x.pos in Square(size) + {Origin} {
      if x in queue[1..] {
        assert x in queue;
      }
    }
  }

  lemma SettleSearch(w: (Pos, Pos) -> int, settled: map<Pos, int>, queue: seq<Entry>, pushes: seq<Entry>)
    requires queue != [] && Layered(queue) && queue[0].pos !in settled
    requires SearchInv(w, Origin, settled, Frontier(queue))
    requires forall t :: w(queue[0].pos, t) >= 0 ==> (t, queue[0].cost + w(queue[0].pos, t)) in Frontier(pushes)
    requires forall t, d :: (t, d) in Frontier(pushes) ==> w(queue[0].pos, t) >= 0 && d == queue[0].cost + w(queue[0].pos, t)
    ensures SearchInv(w, Origin, settled[queue[0].pos := queue[0].cost], Frontier(queue[1..] + pushes))
  {
    var e := queue[0];
    PoppedFront(queue);
    assert Offers(w, e.pos, e.cost, Frontier(pushes));
    FrontierAppend(queue[1..], pushes);
    PopAndSettle(w, Origin, settled, Frontier(queue), e.pos, e.cost, Frontier(queue[1..]), Frontier(pushes));
  }

  /** The front of a layered queue is a cheapest frontier entry, and the rest of the queue is what popping it leaves. */
  lemma PoppedFront(queue: seq<Entry>)
    requires queue != [] && Layered(queue)
    ensures PoppedFrom(Frontier(queue), queue[0].pos, queue[0].cost, Frontier(queue[1..]))
  {
    FrontCheapest(queue);
    FrontierTail(queue);
  }

  lemma FrontierAppend(a: seq<Entry>, b: seq<Entry>)
    ensures Frontier(a + b) == Frontier(a) + Frontier(b)
  {
  }

  /** Popping an unseen position settles it at its popped cost and pushes
      its free neighbours one step dearer. */
  lemma Settle(corruptions: set<Pos>, size: nat, seen: set<Pos>, settled: map<Pos, int>, queue: seq<Entry>)
    requires Inv(corruptions, size, seen, settled, queue) && queue != []
    requires queue[0].pos !in seen && queue[0].pos != Exit(size)
    ensures Inv(corruptions, size, seen + {queue[0].pos}, settled[queue[0].pos := queue[0].cost],
                queue[1..] + PushesUpTo(corruptions, size, queue[0], 4))
    ensures |Square(size) + {Origin} - (seen + {queue[0].pos})| < |Square(size) + {Origin} - seen|
  {
    SettleKeepsInv(corruptions, size, seen, settled, queue);
    assert queue[0] in queue;
    Unseen(Square(size) + {Origin}, seen, queue[0].pos);
  }

  /** Settle's first half: the invariant survives the pop and the pushes. */
  lemma SettleKeepsInv(corruptions: set<Pos>, size: nat, seen: set<Pos>, settled: map<Pos, int>, queue: seq<Entry>)
    requires Inv(corruptions, size, seen, settled, queue) && queue != []
    requires queue[0].pos !in seen && queue[0].pos != Exit(size)
    ensures Inv(corruptions, size, seen + {queue[0].pos}, settled[queue[0].pos := queue[0].cost],
                queue[1..] + PushesUpTo(corruptions, size, queue[0], 4))
  {
    var e := queue[0];
    PushesAreEdges(corruptions, size, e);
    SettleSearch(Edge(corruptions, size), settled, queue, PushesUpTo(corruptions, size, e, 4));
    PushedLayered(corruptions, size, queue);
    PushedInSquare(corruptions, size, queue);
    assert e in queue;
  }

  /** Seeing one more position of the universe leaves fewer unseen. */
  lemma Unseen<T>(universe: set<T>, seen: set<T>, x: T)
    requires x in universe && x !in seen
    ensures |universe - (seen + {x})| < |universe - seen|
  {
    assert (universe - seen) - {x} == universe - (seen + {x});
  }

  /** Appends the entries `bfs` pushes after settling `e`. */
  method PushNeighbours(corruptions: set<Pos>, size: nat, queue: seq<Entry>, e: Entry) returns (queue': seq<Entry>)
    ensures queue' == queue + PushesUpTo(corruptions, size, e, 4)
  {
    queue' := queue;
    for d := 0 to 4
      invariant queue' == queue + PushesUpTo(corruptions, size, e, d)
    {
      var next := Step(e.pos, d);
      if 0 <= next.0 < size && 0 <= next.1 < size && next !in corruptions {
        queue' := queue' + [Entry(next, e.cost + 1)];
      }
    }
  }

  /** An empty queue means nothing unsettled is reachable, the exit included. */
  lemma QueueDrained(corruptions: set<Pos>, size: nat, seen: set<Pos>, settled: map<Pos, int>)
    requires Inv(corruptions, size, seen, settled, [])
    ensures !Reachable(corruptions, size)
  {
    assert Frontier([]) == {};
    if p :| IsPath(Edge(corruptions, size), p) && p[0] == Origin && p[|p| - 1] == Exit(size) {
      Drained(Edge(corruptions, size), Origin, settled, p);
    }
  }

  /** `bfs`: the length of a shortest route from (0, 0) to the exit, or
      None exactly when there is none. */
  method Bfs(corruptions: set<Pos>, size: nat) returns (r: Option<nat>)
    ensures r.Some? ==> Shortest(Edge(corruptions, size), Origin, Exit(size), r.value)
    ensures r.None? <==> !Reachable(corruptions, size)
  {
    var seen: set<Pos> := {};
    var queue := [Entry(Origin, 0)];
    ghost var settled: map<Pos, int> := map[];
    InvInit(corruptions, size);
    while queue != []
      invariant Inv(corruptions, size, seen, settled, queue)
      decreases |Square(size) + {Origin} - seen|, |queue|
    {
      var e := queue[0];
      if e.pos == Exit(size) {
        AtExit(corruptions, size, seen, settled, queue);
        return Some(e.cost);
      }
      if e.pos in seen {
        SkipStale(corruptions, size, seen, settled, queue);
        queue := queue[1..];
        continue;
      }
      Settle(corruptions, size, seen, settled, queue);
      seen := seen + {e.pos};
      settled := settled[e.pos := e.cost];
      queue := PushNeighbours(corruptions, size, queue[1..], e);
    }
    QueueDrained(corruptions, size, seen, settled);
    return None;
  }

  /** The first n coordinates of the input, fallen. */
  function Fallen(input: seq<Pos>, n: nat): set<Pos>
    requires n <= |input|
  {
    set i | 0 <= i < n :: input[i]
  }

  /** One more byte falls. */
  lemma FallOne(input: seq<Pos>, n: nat)
    requires n < |input|
    ensures Fallen(input, n + 1) == Fallen(input, n) + {input[n]}
  {
  }

  /** More corruption only removes moves: a route around a superset of
      corrupted cells is a route, of the same cost, around the subset. */
  lemma FewerCorruptions(c1: set<Pos>, c2: set<Pos>, size: nat, p: seq<Pos>)
    requires c1 <= c2 && IsPath(Edge(c2, size), p)
    ensures IsPath(Edge(c1, size), p) && Cost(Edge(c1, size), p) == Cost(Edge(c2, size), p)
  {
    var w1, w2 := Edge(c1, size), Edge(c2, size);
    forall i | 0 < i < |p| ensures w1(p[i - 1], p[i]) == w2(p[i - 1], p[i]) {
      assert w2(p[i - 1], p[i]) >= 0;
    }
    AgreeingEdges(w1, w2, p);
  }

  /** Once the exit is cut off it stays cut off as more bytes fall. */
  lemma CutStaysCut(c1: set<Pos>, c2: set<Pos>, size: nat)
    requires c1 <= c2 && !Reachable(c1, size)
    ensures !Reachable(c2, size)
  {
    if p :| IsPath(Edge(c2, size), p) && p[0] == Origin && p[|p| - 1] == Exit(size) {
      FewerCorruptions(c1, c2, size, p);
    }
  }

  /** `part1`: the shortest route once the first `numFallen` bytes have
      fallen; None is the "No solution found" error. Reading past the end
      of the input panics in the source, hence the precondition. */
  method Part1(input: seq<Pos>, size: nat, numFallen: nat) returns (r: Option<nat>)
    requires numFallen <= |input|
    ensures r.Some? ==> Shortest(Edge(Fallen(input, numFallen), size), Origin, Exit(size), r.value)
    ensures r.None? <==> !Reachable(Fallen(input, numFallen), size)
  {
    var corruptions: set<Pos> := {};
    for i := 0 to numFallen
      invariant corruptions == Fallen(input, i)
    {
      FallOne(input, i);
      corruptions := corruptions + {input[i]};
    }
    r := Bfs(corruptions, size);
  }

  /** After the first n bytes have fallen the exit can still be reached. */
  ghost predicate OpenAfter(input: seq<Pos>, size: nat, n: nat)
  {
    n <= |input| && Reachable(Fallen(input, n), size)
  }

  /** `part2`: the first byte after whose fall the exit is unreachable;
      None is the "No solution found" error. */
  method Part2(input: seq<Pos>, size: nat) returns (r: Option<Pos>)
    ensures r.None? <==> forall n :: 0 < n <= |input| ==> OpenAfter(input, size, n)
    ensures r.Some? ==> exists n :: 0 < n <= |input| && r.value == input[n - 1]
                          && !OpenAfter(input, size, n)
                          && forall m :: 0 < m < n ==> OpenAfter(input, size, m)
  {
    var corruptions: set<Pos> := {};
    for i := 0 to |input|
      invariant corruptions == Fallen(input, i)
      invariant forall m :: 0 < m <= i ==> OpenAfter(input, size, m)
    {
      FallOne(input, i);
      corruptions := corruptions + {input[i]};
      var answer := Bfs(corruptions, size);
      if answer.None? {
        assert !OpenAfter(input, size, i + 1);
        return Some(input[i]);
      }
    }
    return None;
  }
}
