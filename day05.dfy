/** Day 5: page-ordering rules, the updates that obey them, and Kahn's
    topological sort for the ones that do not. */
module Day05 {
  import opened Common

  /** A rule `before|after`: page `before` must come before page `after`. */
  datatype Rule = Rule(before: nat, after: nat)

  // ---------------------------------------------------------------------
  // The rule check (pure)

  /** The first index at or after i where x occurs in s. */
  function PositionFrom(s: seq<nat>, x: nat, i: nat): (r: Option<nat>)
    requires i <= |s|
    ensures r.Some? ==> i <= r.value < |s| && s[r.value] == x
    ensures r.Some? ==> forall q :: i <= q < r.value ==> s[q] != x
    ensures r.None? ==> forall q :: i <= q < |s| ==> s[q] != x
    decreases |s| - i
  {
    if i == |s| then None
    else if s[i] == x then Some(i)
    else PositionFrom(s, x, i + 1)
  }

  /** The position of the first occurrence of x in s. */
  function Position(s: seq<nat>, x: nat): (r: Option<nat>)
    ensures r.Some? ==> r.value < |s| && s[r.value] == x
    ensures r.Some? ==> forall q :: 0 <= q < r.value ==> s[q] != x
    ensures r.None? <==> x !in s
  {
    PositionFrom(s, x, 0)
  }

  /** A rule holds for an update unless both pages occur and the first
      `after` comes before the first `before`. */
  predicate Holds(rule: Rule, update: seq<nat>)
  {
    match (Position(update, rule.before), Position(update, rule.after))
    case (Some(p1), Some(p2)) => p1 < p2
    case _ => true
  }

  /** An update in the right order: every rule holds. */
  predicate Valid(rules: seq<Rule>, update: seq<nat>)
  {
    forall i :: 0 <= i < |rules| ==> Holds(rules[i], update)
  }

  /**
   * A rule holds exactly when, if `before` occurs at all, every occurrence
   * of `after` has an occurrence of `before` somewhere in front of it.
   */
  lemma HoldsIff(rule: Rule, update: seq<nat>)
    ensures Holds(rule, update) <==>
      (rule.before in update ==>
        forall j :: 0 <= j < |update| && update[j] == rule.after ==> rule.before in update[..j])
  {
    var p1, p2 := Position(update, rule.before), Position(update, rule.after);
    if p1.Some? && p2.Some? {
      if Holds(rule, update) {
        forall j | 0 <= j < |update| && update[j] == rule.after
          ensures rule.before in update[..j]
        {
          assert update[..j][p1.value] == rule.before;
        }
      } else {
        assert update[p2.value] == rule.after;
        assert rule.before !in update[..p2.value];
      }
    }
  }

  /** The middle page of an update. */
  function Middle(update: seq<nat>): nat
    requires |update| > 0
  {
    update[|update| / 2]
  }

  /** Every update is non-empty: each comes from a line holding a comma. */
  predicate AllNonEmpty(updates: seq<seq<nat>>)
  {
    forall k :: 0 <= k < |updates| ==> |updates[k]| > 0
  }

  /** Part 1 over the first k updates: the middle pages of the valid ones. */
  function ValidSum(rules: seq<Rule>, updates: seq<seq<nat>>, k: nat): nat
    requires k <= |updates| && AllNonEmpty(updates)
  {
    if k == 0 then 0
    else ValidSum(rules, updates, k - 1) + (if Valid(rules, updates[k - 1]) then Middle(updates[k - 1]) else 0)
  }

  /** The middle pages of the invalid updates among the first k. */
  function InvalidSum(rules: seq<Rule>, updates: seq<seq<nat>>, k: nat): nat
    requires k <= |updates| && AllNonEmpty(updates)
  {
    if k == 0 then 0
    else InvalidSum(rules, updates, k - 1) + (if Valid(rules, updates[k - 1]) then 0 else Middle(updates[k - 1]))
  }

  /** The middle pages of the first k updates. */
  function MiddleSum(updates: seq<seq<nat>>, k: nat): nat
    requires k <= |updates| && AllNonEmpty(updates)
  {
    if k == 0 then 0 else MiddleSum(updates, k - 1) + Middle(updates[k - 1])
  }

  /** The sum of all middle pages splits into those of the valid and of the invalid updates. */
  lemma {:induction false} PartsAddUp(rules: seq<Rule>, updates: seq<seq<nat>>, k: nat)
    requires k <= |updates| && AllNonEmpty(updates)
    ensures ValidSum(rules, updates, k) + InvalidSum(rules, updates, k) == MiddleSum(updates, k)
  {
    if k > 0 {
      PartsAddUp(rules, updates, k - 1);
    }
  }

  /**
   * Part 1: the sum of the middle pages of the updates already in order;
   * with the invalid updates' middle pages it makes up all of them.
   */
  function Part1(rules: seq<Rule>, updates: seq<seq<nat>>): (r: nat)
    requires AllNonEmpty(updates)
    ensures r + InvalidSum(rules, updates, |updates|) == MiddleSum(updates, |updates|)
  {
    PartsAddUp(rules, updates, |updates|);
    ValidSum(rules, updates, |updates|)
  }

  // ---------------------------------------------------------------------
  // Kahn's sort: the specification

  /** The rules whose two pages both occur in the update: the sort's graph. */
  function Relevant(rules: seq<Rule>, update: seq<nat>): (r: seq<Rule>)
    ensures forall e :: e in r <==> e in rules && e.before in update && e.after in update
  {
    if |rules| == 0 then []
    else
      (if rules[0].before in update && rules[0].after in update then [rules[0]] else [])
      + Relevant(rules[1..], update)
  }

  /** No edge of the graph ends at x. */
  predicate NoIncoming(graph: seq<Rule>, x: nat)
  {
    forall e :: e in graph ==> e.after != x
  }

  /** The pages of the update without an incoming edge, in update order: the initial stack. */
  function Sources(update: seq<nat>, graph: seq<Rule>): (r: seq<nat>)
    ensures forall x :: x in r <==> x in update && NoIncoming(graph, x)
  {
    if |update| == 0 then []
    else
      (if NoIncoming(graph, update[0]) then [update[0]] else [])
      + Sources(update[1..], graph)
  }

  /**
   * `graph.retain` with its closure: the edges not leaving n are kept, and
   * the targets of the removed edges are collected in order.
   */
  function Retain(graph: seq<Rule>, n: nat): (r: (seq<Rule>, seq<nat>))
    ensures |r.0| + |r.1| == |graph|
    ensures forall e :: e in r.0 <==> e in graph && e.before != n
    ensures forall m :: m in r.1 ==> Rule(n, m) in graph
  {
    if |graph| == 0 then ([], [])
    else
      var rest := Retain(graph[1..], n);
      if graph[0].before == n then (rest.0, [graph[0].after] + rest.1)
      else ([graph[0]] + rest.0, rest.1)
  }

  /** The first k targets that have no incoming edge left, in order: what is pushed on the stack. */
  function PushFree(ms: seq<nat>, graph: seq<Rule>, k: nat): (r: seq<nat>)
    requires k <= |ms|
    ensures |r| <= k
    ensures forall x :: x in r ==> x in ms && NoIncoming(graph, x)
  {
    if k == 0 then []
    else PushFree(ms, graph, k - 1) + (if NoIncoming(graph, ms[k - 1]) then [ms[k - 1]] else [])
  }

  /**
   * The sort loop from a state: pop the top page, append it to the result,
   * drop its outgoing edges, and push the targets left without incoming edges.
   */
  function KahnFrom(graph: seq<Rule>, stack: seq<nat>, result: seq<nat>): seq<nat>
    decreases |stack| + |graph|
  {
    if |stack| == 0 then result
    else
      var n := stack[|stack| - 1];
      var (kept, ms) := Retain(graph, n);
      KahnFrom(kept, stack[..|stack| - 1] + PushFree(ms, kept, |ms|), result + [n])
  }

  /** The order Kahn's sort gives an update. */
  function KahnOrder(rules: seq<Rule>, update: seq<nat>): seq<nat>
  {
    var graph := Relevant(rules, update);
    KahnFrom(graph, Sources(update, graph), [])
  }

  // ---------------------------------------------------------------------
  // Kahn's sort: what its order guarantees

  /** Every edge into x starts at a page already in done. */
  ghost predicate Ready(g0: seq<Rule>, done: seq<nat>, x: nat)
  {
    forall e :: e in g0 && e.after == x ==> e.before in done
  }

  /** Every page of the order comes after the sources of all its incoming edges. */
  ghost predicate Topological(g0: seq<Rule>, order: seq<nat>)
  {
    forall j :: 0 <= j < |order| ==> Ready(g0, order[..j], order[j])
  }

  /** The loop state of the sort, relative to the update and its graph g0. */
  ghost predicate SortState(update: seq<nat>, g0: seq<Rule>, graph: seq<Rule>, stack: seq<nat>, result: seq<nat>)
  {
    (forall e :: e in graph <==> e in g0 && e.before !in result) &&
    (forall x :: x in stack ==> x in update && Ready(g0, result, x)) &&
    (forall x :: x in result ==> x in update) &&
    Topological(g0, result)
  }

  lemma ReadyGrows(g0: seq<Rule>, done: seq<nat>, n: nat, x: nat)
    requires Ready(g0, done, x)
    ensures Ready(g0, done + [n], x)
  {
    forall e | e in g0 && e.after == x
      ensures e.before in done + [n]
    {
      assert e.before in done;
    }
  }

  /** One pop of the sort keeps its state. */
  lemma SortStep(update: seq<nat>, g0: seq<Rule>, graph: seq<Rule>, stack: seq<nat>, result: seq<nat>)
    requires forall e :: e in g0 ==> e.after in update
    requires |stack| > 0 && SortState(update, g0, graph, stack, result)
    ensures SortState(update, g0, Retain(graph, stack[|stack| - 1]).0,
      stack[..|stack| - 1] + PushFree(Retain(graph, stack[|stack| - 1]).1, Retain(graph, stack[|stack| - 1]).0,
                                      |Retain(graph, stack[|stack| - 1]).1|),
      result + [stack[|stack| - 1]])
  {
    var n := stack[|stack| - 1];
    var (kept, ms) := Retain(graph, n);
    var result' := result + [n];
    var stack' := stack[..|stack| - 1] + PushFree(ms, kept, |ms|);
    assert n in stack;
    forall x | x in stack'
      ensures x in update && Ready(g0, result', x)
    {
      if x in stack[..|stack| - 1] {
        assert x in stack;
        ReadyGrows(g0, result, n, x);
      } else {
        assert x in ms && NoIncoming(kept, x);
        assert Rule(n, x) in graph;
        forall e | e in g0 && e.after == x
          ensures e.before in result'
        {
          assert e !in kept;
        }
      }
    }
    forall j | 0 <= j < |result'|
      ensures Ready(g0, result'[..j], result'[j])
    {
      if j < |result| {
        assert result'[..j] == result[..j];
      } else {
        assert result'[..j] == result;
      }
    }
  }

  /** From any sort state the finished order is topological and made of the update's pages. */
  lemma {:induction false} KahnFromSound(update: seq<nat>, g0: seq<Rule>, graph: seq<Rule>, stack: seq<nat>, result: seq<nat>)
    requires forall e :: e in g0 ==> e.after in update
    requires SortState(update, g0, graph, stack, result)
    ensures Topological(g0, KahnFrom(graph, stack, result))
    ensures forall x :: x in KahnFrom(graph, stack, result) ==> x in update
    decreases |stack| + |graph|
  {
    if |stack| > 0 {
      var n := stack[|stack| - 1];
      var (kept, ms) := Retain(graph, n);
      SortStep(update, g0, graph, stack, result);
      KahnFromSound(update, g0, kept, stack[..|stack| - 1] + PushFree(ms, kept, |ms|), result + [n]);
    }
  }

  /**
   * Kahn's order of an update lists only its pages, each after the sources
   * of all the update's rules that end at it.
   */
  lemma KahnOrderSound(rules: seq<Rule>, update: seq<nat>)
    ensures Topological(Relevant(rules, update), KahnOrder(rules, update))
    ensures forall x :: x in KahnOrder(rules, update) ==> x in update
  {
    var g0 := Relevant(rules, update);
    KahnFromSound(update, g0, g0, Sources(update, g0), []);
  }

  /** A topological order of the update's pages satisfies every rule. */
  lemma TopologicalHolds(rules: seq<Rule>, update: seq<nat>, order: seq<nat>)
    requires Topological(Relevant(rules, update), order)
    requires forall x :: x in order ==> x in update
    ensures Valid(rules, order)
  {
    forall i | 0 <= i < |rules|
      ensures Holds(rules[i], order)
    {
      var rule := rules[i];
      HoldsIff(rule, order);
      forall j | 0 <= j < |order| && order[j] == rule.after && rule.before in order
        ensures rule.before in order[..j]
      {
        assert order[j] in order;
        assert rule.before in update;
        assert rule in Relevant(rules, update);
      }
    }
  }

  /** Whatever Kahn's sort returns obeys every rule. */
  lemma KahnOrderValid(rules: seq<Rule>, update: seq<nat>)
    ensures Valid(rules, KahnOrder(rules, update))
  {
    KahnOrderSound(rules, update);
    TopologicalHolds(rules, update, KahnOrder(rules, update));
  }

  // ---------------------------------------------------------------------
  // Kahn's sort: the loop

  /** The targets that have no incoming edge left are pushed on the stack, in order. */
  method PushTargets(stack: seq<nat>, ms: seq<nat>, graph: seq<Rule>) returns (s: seq<nat>)
    ensures s == stack + PushFree(ms, graph, |ms|)
  {
    s := stack;
    for k := 0 to |ms|
      invariant s == stack + PushFree(ms, graph, k)
    {
      if NoIncoming(graph, ms[k]) {
        s := s + [ms[k]];
      }
    }
  }

  /** Kahn's algorithm on one update, with the graph, stack and result edited in place. */
  method KahnSort(rules: seq<Rule>, update: seq<nat>) returns (result: seq<nat>)
    ensures result == KahnOrder(rules, update)
  {
    var graph := Relevant(rules, update);
    result := [];
    var s := Sources(update, graph);
    while |s| > 0
      invariant KahnFrom(graph, s, result) == KahnOrder(rules, update)
      decreases |s| + |graph|
    {
      var n := s[|s| - 1];
      s := s[..|s| - 1];
      result := result + [n];
      var retained := Retain(graph, n);
      graph := retained.0;
      s := PushTargets(s, retained.1, graph);
    }
  }

  /** What one update adds to part 2: nothing when it is valid, else the
      middle page of its sorted order; None when that order is empty. */
  function Contribution(rules: seq<Rule>, update: seq<nat>): Option<nat>
  {
    if Valid(rules, update) then Some(0)
    else
      var order := KahnOrder(rules, update);
      if |order| == 0 then None else Some(Middle(order))
  }

  function Add(sum: Option<nat>, more: Option<nat>): (r: Option<nat>)
    ensures sum.None? ==> r.None?
  {
    if sum.None? || more.None? then None else Some(sum.value + more.value)
  }

  /** The first k contributions added up; None once any of them is None. */
  function OptionSum(cs: seq<Option<nat>>, k: nat): Option<nat>
    requires k <= |cs|
  {
    if k == 0 then Some(0) else Add(OptionSum(cs, k - 1), cs[k - 1])
  }

  /** What each update adds to part 2. */
  function Contributions(rules: seq<Rule>, updates: seq<seq<nat>>): (cs: seq<Option<nat>>)
    ensures |cs| == |updates| && forall i :: 0 <= i < |cs| ==> cs[i] == Contribution(rules, updates[i])
  {
    seq(|updates|, i requires 0 <= i < |updates| => Contribution(rules, updates[i]))
  }

  /** Part 2 over the first k updates; None from the first update whose sort comes back empty on. */
  function ReorderedSum(rules: seq<Rule>, updates: seq<seq<nat>>, k: nat): Option<nat>
    requires k <= |updates|
  {
    OptionSum(Contributions(rules, updates), k)
  }

  /** One update of part 2: kept only when invalid, then sorted and its middle page taken. */
  method Reorder(rules: seq<Rule>, update: seq<nat>) returns (c: Option<nat>)
    ensures c == Contribution(rules, update)
  {
    if Valid(rules, update) {
      return Some(0);
    }
    var order := KahnSort(rules, update);
    if |order| == 0 {
      return None;
    }
    return Some(Middle(order));
  }

  /**
   * Part 2: the sum of the middle pages of the invalid updates after Kahn's
   * sort. None is the panic when a sort returns no pages (every page of the
   * update has an incoming edge).
   */
  method Part2(rules: seq<Rule>, updates: seq<seq<nat>>) returns (answer: Option<nat>)
    ensures answer == ReorderedSum(rules, updates, |updates|)
  {
    var sum := 0;
    for k := 0 to |updates|
      invariant ReorderedSum(rules, updates, k) == Some(sum)
    {
      var c := Reorder(rules, updates[k]);
      if c.None? {
        ReorderedNoneStays(Contributions(rules, updates), k + 1, |updates|);
        return None;
      }
      sum := sum + c.value;
    }
    return Some(sum);
  }

  /** An early None is final. */
  lemma {:induction false} ReorderedNoneStays(cs: seq<Option<nat>>, k: nat, m: nat)
    requires k <= m <= |cs| && OptionSum(cs, k).None?
    ensures OptionSum(cs, m).None?
    decreases m
  {
    if k < m {
      ReorderedNoneStays(cs, k, m - 1);
    }
  }
}
