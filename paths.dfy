/** Routes through a graph with non-negative integer edge costs, and the
    fact every uniform-cost search below relies on: while the search runs,
    any route that leaves the settled states crosses the frontier at an
    entry no dearer than the route itself.

    A graph is an edge function `w`: `w(s, t) >= 0` is the cost of the
    edge s -> t, and a negative value means there is no such edge. */
module Paths {

  ghost predicate IsPath<S>(w: (S, S) -> int, p: seq<S>)
  {
    |p| > 0 && forall i, j :: 0 <= i < j < |p| && j == i + 1 ==> w(p[i], p[j]) >= 0
  }

  /** The total cost of the edges along `p`. */
  ghost function Cost<S>(w: (S, S) -> int, p: seq<S>): int
    decreases |p|
  {
    if |p| <= 1 then 0 else Cost(w, p[..|p| - 1]) + w(p[|p| - 2], p[|p| - 1])
  }

  /** `p` leads from `src` to `t` and costs exactly `c`. */
  ghost predicate Route<S>(w: (S, S) -> int, src: S, p: seq<S>, t: S, c: int)
  {
    IsPath(w, p) && p[0] == src && p[|p| - 1] == t && Cost(w, p) == c
  }

  lemma {:induction false} CostNonNegative<S>(w: (S, S) -> int, p: seq<S>)
    requires IsPath(w, p)
    ensures Cost(w, p) >= 0
    decreases |p|
  {
    if |p| > 1 {
      var q := p[..|p| - 1];
      assert forall i :: 0 < i < |q| ==> w(q[i - 1], q[i]) == w(p[i - 1], p[i]);
      CostNonNegative(w, q);
      assert w(p[|p| - 2], p[|p| - 1]) >= 0;
    }
  }

  /** A route extended by one edge is a route costing that edge more. */
  lemma Extend<S>(w: (S, S) -> int, src: S, p: seq<S>, s: S, c: int, t: S)
    requires Route(w, src, p, s, c) && w(s, t) >= 0
    ensures Route(w, src, p + [t], t, c + w(s, t))
  {
    var q := p + [t];
    assert q[..|q| - 1] == p;
    forall i | 0 < i < |q|
      ensures w(q[i - 1], q[i]) >= 0
    {
      if i < |p| {
        assert q[i - 1] == p[i - 1] && q[i] == p[i];
      }
    }
  }

  /** The one-state route. */
  lemma Start<S>(w: (S, S) -> int, src: S)
    ensures Route(w, src, [src], src, 0)
  {
  }

  /** Every settled state was settled at a cost no greater than any route to it. */
  ghost predicate SettledOptimal<S(!new)>(w: (S, S) -> int, src: S, settled: map<S, int>)
  {
    forall p :: IsPath(w, p) && p[0] == src && p[|p| - 1] in settled ==>
      settled[p[|p| - 1]] <= Cost(w, p)
  }

  /** Every edge out of a settled state into an unsettled one has been
      offered to the frontier at a cost no greater than going through it. */
  ghost predicate FrontierCovers<S(!new)>(w: (S, S) -> int, settled: map<S, int>, frontier: set<(S, int)>)
  {
    forall s, t :: s in settled && t !in settled && w(s, t) >= 0 ==>
      exists c :: (t, c) in frontier && c <= settled[s] + w(s, t)
  }

  /** The source is settled or waiting in the frontier at cost 0. */
  ghost predicate SourceCovered<S>(src: S, settled: map<S, int>, frontier: set<(S, int)>)
  {
    src in settled || (src, 0) in frontier
  }

  /** The uniform-cost search lemma: a route from the source that ends
      outside the settled states has an entry in the frontier costing no
      more than the route. */
  lemma {:induction false} FrontierCrossing<S(!new)>(w: (S, S) -> int, src: S, settled: map<S, int>,
                                                      frontier: set<(S, int)>, p: seq<S>)
    requires IsPath(w, p) && p[0] == src && p[|p| - 1] !in settled
    requires SourceCovered(src, settled, frontier)
    requires SettledOptimal(w, src, settled) && FrontierCovers(w, settled, frontier)
    ensures exists t, c :: (t, c) in frontier && c <= Cost(w, p)
    decreases |p|
  {
    if |p| == 1 {
      assert (src, 0) in frontier;
    } else {
      var q := p[..|p| - 1];
      assert forall i :: 0 < i < |q| ==> w(q[i - 1], q[i]) == w(p[i - 1], p[i]);
      assert IsPath(w, q);
      var prev, last := p[|p| - 2], p[|p| - 1];
      assert q[|q| - 1] == prev;
      assert w(prev, last) >= 0;
      if prev !in settled {
        FrontierCrossing(w, src, settled, frontier, q);
        var t, c :| (t, c) in frontier && c <= Cost(w, q);
        assert c <= Cost(w, p);
      } else {
        assert settled[prev] <= Cost(w, q);
        var c :| (last, c) in frontier && c <= settled[prev] + w(prev, last);
        assert c <= Cost(w, p);
      }
    }
  }

  /** When the frontier is empty every route from the source stays inside
      the settled states: nothing unsettled is reachable. */
  lemma EmptyFrontier<S(!new)>(w: (S, S) -> int, src: S, settled: map<S, int>, p: seq<S>)
    requires IsPath(w, p) && p[0] == src
    requires src in settled
    requires SettledOptimal(w, src, settled) && FrontierCovers(w, settled, {})
    ensures p[|p| - 1] in settled
  {
    if p[|p| - 1] !in settled {
      FrontierCrossing(w, src, settled, {}, p);
    }
  }

  /** Two edge functions that agree along a path give it the same cost. */
  lemma {:induction false} AgreeingEdges<S>(w1: (S, S) -> int, w2: (S, S) -> int, p: seq<S>)
    requires IsPath(w2, p)
    requires forall i :: 0 < i < |p| ==> w1(p[i - 1], p[i]) == w2(p[i - 1], p[i])
    ensures IsPath(w1, p) && Cost(w1, p) == Cost(w2, p)
    decreases |p|
  {
    if |p| > 1 {
      var q := p[..|p| - 1];
      assert forall i :: 0 <= i < |q| ==> q[i] == p[i];
      AgreeingEdges(w1, w2, q);
    }
  }

  /** Every frontier entry has a route of exactly its cost. */
  ghost predicate Witnessed<S(!new)>(w: (S, S) -> int, src: S, frontier: set<(S, int)>)
  {
    forall t, c :: (t, c) in frontier ==> exists p :: Route(w, src, p, t, c)
  }

  /** What a uniform-cost search keeps true between pops. */
  ghost predicate SearchInv<S(!new)>(w: (S, S) -> int, src: S, settled: map<S, int>, frontier: set<(S, int)>)
  {
    && SourceCovered(src, settled, frontier)
    && SettledOptimal(w, src, settled)
    && FrontierCovers(w, settled, frontier)
    && Witnessed(w, src, frontier)
  }

  /** No frontier entry is cheaper than c. */
  ghost predicate AtMost<S(!new)>(frontier: set<(S, int)>, c: int)
  {
    forall t, d :: (t, d) in frontier ==> c <= d
  }

  /** A route costing c leads from the source to s, and none costs less. */
  ghost predicate Shortest<S(!new)>(w: (S, S) -> int, src: S, s: S, c: int)
  {
    && (exists p :: Route(w, src, p, s, c))
    && (forall p :: IsPath(w, p) && p[0] == src && p[|p| - 1] == s ==> c <= Cost(w, p))
  }

  /** The search invariant starts out true with the source alone queued at cost 0. */
  lemma SearchStart<S(!new)>(w: (S, S) -> int, src: S)
    ensures SearchInv(w, src, map[], {(src, 0)})
  {
    Start(w, src);
  }

  /** The cheapest frontier entry, popped while its state is unsettled,
      carries that state's shortest distance. */
  lemma PopCheapest<S(!new)>(w: (S, S) -> int, src: S, settled: map<S, int>, frontier: set<(S, int)>, s: S, c: int)
    requires SearchInv(w, src, settled, frontier)
    requires (s, c) in frontier && s !in settled && AtMost(frontier, c)
    ensures Shortest(w, src, s, c)
  {
    NoCheaperRoute(w, src, settled, frontier, s, c);
  }

  /** No route to an unsettled state costs less than the cheapest frontier entry. */
  lemma NoCheaperRoute<S(!new)>(w: (S, S) -> int, src: S, settled: map<S, int>, frontier: set<(S, int)>, s: S, c: int)
    requires SourceCovered(src, settled, frontier) && SettledOptimal(w, src, settled)
    requires FrontierCovers(w, settled, frontier)
    requires s !in settled && AtMost(frontier, c)
    ensures forall p :: IsPath(w, p) && p[0] == src && p[|p| - 1] == s ==> c <= Cost(w, p)
  {
    forall p | IsPath(w, p) && p[0] == src && p[|p| - 1] == s
      ensures c <= Cost(w, p)
    {
      FrontierCrossing(w, src, settled, frontier, p);
    }
  }

  /** Dropping an entry whose state is already settled keeps the invariant. */
  lemma PopSettled<S(!new)>(w: (S, S) -> int, src: S, settled: map<S, int>, frontier: set<(S, int)>,
                            s: S, c: int, rest: set<(S, int)>)
    requires SearchInv(w, src, settled, frontier)
    requires s in settled && frontier - {(s, c)} <= rest <= frontier
    ensures SearchInv(w, src, settled, rest)
  {
    forall s0, t | s0 in settled && t !in settled && w(s0, t) >= 0
      ensures exists d :: (t, d) in rest && d <= settled[s0] + w(s0, t)
    {
      var d :| (t, d) in frontier && d <= settled[s0] + w(s0, t);
      assert (t, d) != (s, c);
    }
  }

  /** `pushed` holds every edge out of s, at c plus the edge's cost. */
  ghost predicate OffersEvery<S(!new)>(w: (S, S) -> int, s: S, c: int, pushed: set<(S, int)>)
  {
    forall t :: w(s, t) >= 0 ==> (t, c + w(s, t)) in pushed
  }

  /** `pushed` offers every edge out of s, each at c plus its cost, and nothing else. */
  ghost predicate Offers<S(!new)>(w: (S, S) -> int, s: S, c: int, pushed: set<(S, int)>)
  {
    && OffersEvery(w, s, c, pushed)
    && (forall t, d :: (t, d) in pushed ==> w(s, t) >= 0 && d == c + w(s, t))
  }

  /** (s, c) is a cheapest frontier entry and `rest` is the frontier after
      popping it (a duplicate of it may stay behind). */
  ghost predicate PoppedFrom<S(!new)>(frontier: set<(S, int)>, s: S, c: int, rest: set<(S, int)>)
  {
    (s, c) in frontier && AtMost(frontier, c) && frontier - {(s, c)} <= rest <= frontier
  }

  /** Settling the cheapest entry and offering every edge out of it keeps
      the invariant. */
  lemma PopAndSettle<S(!new)>(w: (S, S) -> int, src: S, settled: map<S, int>, frontier: set<(S, int)>,
                              s: S, c: int, rest: set<(S, int)>, pushed: set<(S, int)>)
    requires SearchInv(w, src, settled, frontier)
    requires PoppedFrom(frontier, s, c, rest) && s !in settled
    requires Offers(w, s, c, pushed)
    ensures SearchInv(w, src, settled[s := c], rest + pushed)
  {
    PopCheapest(w, src, settled, frontier, s, c);
    SettleOptimal(w, src, settled, s, c);
    PopWitnessed(w, src, frontier, s, c, rest, pushed);
    PopCovers(w, settled, frontier, s, c, rest, pushed);
  }

  /** A cost no route undercuts joins the settled costs without breaking their optimality. */
  lemma SettleOptimal<S(!new)>(w: (S, S) -> int, src: S, settled: map<S, int>, s: S, c: int)
    requires SettledOptimal(w, src, settled)
    requires forall p :: IsPath(w, p) && p[0] == src && p[|p| - 1] == s ==> c <= Cost(w, p)
    ensures SettledOptimal(w, src, settled[s := c])
  {
  }

  /** Entries offered out of a witnessed entry are witnessed in turn. */
  lemma PopWitnessed<S(!new)>(w: (S, S) -> int, src: S, frontier: set<(S, int)>,
                              s: S, c: int, rest: set<(S, int)>, pushed: set<(S, int)>)
    requires Witnessed(w, src, frontier) && (s, c) in frontier && rest <= frontier
    requires Offers(w, s, c, pushed)
    ensures Witnessed(w, src, rest + pushed)
  {
    var here :| Route(w, src, here, s, c);
    forall t, d | (t, d) in rest + pushed
      ensures exists p :: Route(w, src, p, t, d)
    {
      if (t, d) in pushed {
        Extend(w, src, here, s, c, t);
      }
    }
  }

  /** The offers out of the popped state cover the edges out of it; the
      rest of the frontier still covers every other settled state. */
  lemma PopCovers<S(!new)>(w: (S, S) -> int, settled: map<S, int>, frontier: set<(S, int)>,
                           s: S, c: int, rest: set<(S, int)>, pushed: set<(S, int)>)
    requires FrontierCovers(w, settled, frontier) && PoppedFrom(frontier, s, c, rest)
    requires OffersEvery(w, s, c, pushed)
    ensures FrontierCovers(w, settled[s := c], rest + pushed)
  {
    var settled' := settled[s := c];
    forall s0, t | s0 in settled' && t !in settled' && w(s0, t) >= 0
      ensures exists d :: (t, d) in rest + pushed && d <= settled'[s0] + w(s0, t)
    {
      if s0 == s {
        assert (t, c + w(s, t)) in pushed;
      } else {
        var d :| (t, d) in frontier && d <= settled[s0] + w(s0, t);
        assert (t, d) != (s, c);
      }
    }
  }

  /** With nothing left to pop, every state reachable from the source is settled. */
  lemma Drained<S(!new)>(w: (S, S) -> int, src: S, settled: map<S, int>, p: seq<S>)
    requires SearchInv(w, src, settled, {})
    requires IsPath(w, p) && p[0] == src
    ensures p[|p| - 1] in settled
  {
    EmptyFrontier(w, src, settled, p);
  }

  /** Some route from the source ends in a goal state. */
  ghost predicate ReachesGoal<S(!new)>(w: (S, S) -> int, src: S, goal: S -> bool)
  {
    exists p :: IsPath(w, p) && p[0] == src && goal(p[|p| - 1])
  }

  /** A cheapest route to a goal is in particular a route to a goal. */
  lemma ShortestReaches<S(!new)>(w: (S, S) -> int, src: S, goal: S -> bool, c: int)
    requires ShortestToGoal(w, src, goal, c)
    ensures ReachesGoal(w, src, goal)
  {
    var p :| IsPath(w, p) && p[0] == src && goal(p[|p| - 1]) && Cost(w, p) == c;
  }

  /** A route costing c leads from the source to a goal state, and no
      route to any goal state costs less. */
  ghost predicate ShortestToGoal<S(!new)>(w: (S, S) -> int, src: S, goal: S -> bool, c: int)
  {
    && (exists p :: IsPath(w, p) && p[0] == src && goal(p[|p| - 1]) && Cost(w, p) == c)
    && (forall p :: IsPath(w, p) && p[0] == src && goal(p[|p| - 1]) ==> c <= Cost(w, p))
  }

  /** A search that never settles a goal state and pops the cheapest
      entry at a goal has found the cheapest goal. */
  lemma PopGoal<S(!new)>(w: (S, S) -> int, src: S, goal: S -> bool, settled: map<S, int>,
                         frontier: set<(S, int)>, s: S, c: int)
    requires SearchInv(w, src, settled, frontier)
    requires (s, c) in frontier && goal(s) && AtMost(frontier, c)
    requires forall t :: t in settled ==> !goal(t)
    ensures ShortestToGoal(w, src, goal, c)
  {
    var p :| Route(w, src, p, s, c);
    forall p | IsPath(w, p) && p[0] == src && goal(p[|p| - 1])
      ensures c <= Cost(w, p)
    {
      FrontierCrossing(w, src, settled, frontier, p);
    }
  }

  /** A search that drains without settling a goal state proves that no
      goal is reachable. */
  lemma DrainedGoal<S(!new)>(w: (S, S) -> int, src: S, goal: S -> bool, settled: map<S, int>)
    requires SearchInv(w, src, settled, {})
    requires forall t :: t in settled ==> !goal(t)
    ensures !ReachesGoal(w, src, goal)
  {
    if p :| IsPath(w, p) && p[0] == src && goal(p[|p| - 1]) {
      EmptyFrontier(w, src, settled, p);
    }
  }

  /** Adding entries that have routes keeps the search invariant. */
  lemma PushMore<S(!new)>(w: (S, S) -> int, src: S, settled: map<S, int>, frontier: set<(S, int)>, extra: set<(S, int)>)
    requires SearchInv(w, src, settled, frontier) && Witnessed(w, src, extra)
    ensures SearchInv(w, src, settled, frontier + extra)
  {
  }

  lemma {:induction false} SpliceCost<S>(w: (S, S) -> int, a: seq<S>, b: seq<S>)
    requires |a| > 0 && |b| > 0 && a[|a| - 1] == b[0]
    ensures Cost(w, a + b[1..]) == Cost(w, a) + Cost(w, b)
    decreases |b|
  {
    if |b| == 1 {
      assert a + b[1..] == a;
    } else {
      var b' := b[..|b| - 1];
      SpliceCost(w, a, b');
      var ab := a + b[1..];
      assert ab[..|ab| - 1] == a + b'[1..];
      assert ab[|ab| - 2] == b[|b| - 2];
    }
  }

  /** Following a route to s by a route from s. */
  lemma Splice<S>(w: (S, S) -> int, a: seq<S>, b: seq<S>)
    requires IsPath(w, a) && IsPath(w, b) && a[|a| - 1] == b[0]
    ensures IsPath(w, a + b[1..]) && Cost(w, a + b[1..]) == Cost(w, a) + Cost(w, b)
  {
    SpliceCost(w, a, b);
    var ab := a + b[1..];
    forall i | 0 < i < |ab| ensures w(ab[i - 1], ab[i]) >= 0 {
      if i >= |a| {
        assert ab[i] == b[i - |a| + 1];
        assert ab[i - 1] == b[i - |a|];
      }
    }
  }

  /** p leads from src to t and no route from src to t costs less. */
  ghost predicate CheapestRoute<S(!new)>(w: (S, S) -> int, src: S, p: seq<S>, t: S)
  {
    && IsPath(w, p) && p[0] == src && p[|p| - 1] == t
    && forall p' :: IsPath(w, p') && p'[0] == src && p'[|p'| - 1] == t ==> Cost(w, p) <= Cost(w, p')
  }

  /** Some cheapest route from src to t passes through q. */
  ghost predicate OnCheapest<S(!new)>(w: (S, S) -> int, src: S, q: S, t: S)
  {
    exists p :: CheapestRoute(w, src, p, t) && q in p
  }

  /** A stretch of a path is a path. */
  lemma Slice<S>(w: (S, S) -> int, p: seq<S>, i: nat, j: nat)
    requires IsPath(w, p) && i < j <= |p|
    ensures IsPath(w, p[i..j])
  {
    var q := p[i..j];
    forall a, b | 0 <= a < b < |q| && b == a + 1 ensures w(q[a], q[b]) >= 0 {
      assert q[a] == p[i + a] && q[b] == p[i + a + 1];
    }
  }

  /** A route to a settled state that costs no more than the settled cost
      is a cheapest route. */
  lemma SettledCheapest<S(!new)>(w: (S, S) -> int, src: S, settled: map<S, int>, p: seq<S>, s: S, c: int)
    requires SettledOptimal(w, src, settled) && s in settled && c <= settled[s]
    requires Route(w, src, p, s, c)
    ensures CheapestRoute(w, src, p, s)
  {
  }

  /** If q lies on a cheapest route to s, and s on a cheapest route to t,
      then q lies on a cheapest route to t: the route to q and on to s
      can replace the start of the route to t. */
  lemma CheapestThrough<S(!new)>(w: (S, S) -> int, src: S, q: S, s: S, t: S)
    requires OnCheapest(w, src, q, s) && OnCheapest(w, src, s, t)
    ensures OnCheapest(w, src, q, t)
  {
    var p1 :| CheapestRoute(w, src, p1, s) && q in p1;
    var p2 :| CheapestRoute(w, src, p2, t) && s in p2;
    var j :| 0 <= j < |p2| && p2[j] == s;
    var p := Shortcut(w, src, p1, p2, j);
    assert q in p;
  }

  /** Cutting a path at its j-th state gives two paths whose costs add up. */
  lemma CutAt<S>(w: (S, S) -> int, p: seq<S>, j: nat)
    requires IsPath(w, p) && j < |p|
    ensures IsPath(w, p[..j + 1]) && IsPath(w, p[j..])
    ensures Cost(w, p) == Cost(w, p[..j + 1]) + Cost(w, p[j..])
  {
    Slice(w, p, 0, j + 1);
    Slice(w, p, j, |p|);
    CutCost(w, p, j);
  }

  /** The cost half of CutAt, which holds of any sequence. */
  lemma CutCost<S>(w: (S, S) -> int, p: seq<S>, j: nat)
    requires j < |p|
    ensures Cost(w, p) == Cost(w, p[..j + 1]) + Cost(w, p[j..])
  {
    var head, tail := p[..j + 1], p[j..];
    assert tail[1..] == p[j + 1..];
    assert head + tail[1..] == p;
    SpliceCostOf(w, head, tail, p);
  }

  /** SpliceCost, stated of the spliced sequence given by name. */
  lemma SpliceCostOf<S>(w: (S, S) -> int, a: seq<S>, b: seq<S>, ab: seq<S>)
    requires |a| > 0 && |b| > 0 && a[|a| - 1] == b[0] && ab == a + b[1..]
    ensures Cost(w, ab) == Cost(w, a) + Cost(w, b)
  {
    SpliceCost(w, a, b);
  }

  /** The route to t with its part up to s replaced by a cheapest route to s. */
  lemma Shortcut<S(!new)>(w: (S, S) -> int, src: S, p1: seq<S>, p2: seq<S>, j: nat) returns (p: seq<S>)
    requires j < |p2| && IsPath(w, p2) && p2[0] == src
    requires CheapestRoute(w, src, p1, p2[j])
    ensures IsPath(w, p) && p[0] == src && p[|p| - 1] == p2[|p2| - 1]
    ensures Cost(w, p) <= Cost(w, p2)
    ensures forall x :: x in p1 ==> x in p
  {
    var head, tail := p2[..j + 1], p2[j..];
    CutAt(w, p2, j);
    Splice(w, p1, tail);
    p := p1 + tail[1..];
    assert p[|p| - 1] == p2[|p2| - 1] by {
      if |tail| > 1 {
        assert p[|p| - 1] == tail[|tail| - 1];
      }
    }
    assert Cost(w, p1) <= Cost(w, head);
  }
}
