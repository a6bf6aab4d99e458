/** Breadth-first search over a transition table, with successors visited in a fixed order. */
module Routes {
  import opened Wrappers

  /** Every successor is a node of the table and has a place in the order. */
  ghost predicate IsTable<N>(allowed: map<N, set<N>>, order: seq<N>) {
    forall n <- allowed :: forall m <- allowed[n] :: m in allowed && m in order
  }

  /** The nodes visited after `from`, each a legal step from the one before, ending in `to`. */
  ghost predicate IsRoute<N>(allowed: map<N, set<N>>, from: N, path: seq<N>, to: N) {
    if path == [] then from == to
    else from in allowed && path[0] in allowed[from] && IsRoute(allowed, path[0], path[1..], to)
  }

  ghost predicate Reachable<N(!new)>(allowed: map<N, set<N>>, from: N, to: N) {
    exists path :: IsRoute(allowed, from, path, to)
  }

  // ---- the fixed order ----

  function Rank<N(==)>(order: seq<N>, n: N): (k: nat)
    requires n in order
    ensures k < |order| && order[k] == n && n !in order[..k]
  {
    if order[0] == n then 0 else 1 + Rank(order[1..], n)
  }

  /** `sorted(nodes, key=order.index)` for nodes that are in the order. */
  function InOrder<N(==)>(order: seq<N>, nodes: set<N>): (r: seq<N>)
    ensures forall n <- r :: n in order && n in nodes
    ensures forall n <- nodes :: n in order ==> n in r
    ensures forall i, j :: 0 <= i < j < |r| ==> Rank(order, r[i]) < Rank(order, r[j])
  {
    if order == [] then []
    else
      var tail := InOrder(order[1..], nodes - {order[0]});
      assert forall n <- tail :: Rank(order, n) == 1 + Rank(order[1..], n);
      if order[0] in nodes then [order[0]] + tail else tail
  }

  /** Of two routes of one length, the one that takes the earlier node where they part. */
  ghost predicate LexLess<N>(order: seq<N>, p: seq<N>, q: seq<N>) {
    exists i :: 0 <= i < |p| && PartsAt(order, p, q, i)
  }

  ghost predicate PartsAt<N>(order: seq<N>, p: seq<N>, q: seq<N>, i: nat)
    requires i < |p|
  {
    i < |q| && p[..i] == q[..i] && p[i] in order && q[i] in order && Rank(order, p[i]) < Rank(order, q[i])
  }

  /** Shorter first; among routes of one length, the lexicographically earlier. */
  ghost predicate Before<N>(order: seq<N>, p: seq<N>, q: seq<N>) {
    |p| < |q| || (|p| == |q| && LexLess(order, p, q))
  }

  ghost predicate AtMost<N>(order: seq<N>, p: seq<N>, q: seq<N>) { p == q || Before(order, p, q) }

  lemma BeforeIsTransitive<N>(order: seq<N>, p: seq<N>, q: seq<N>, r: seq<N>)
    requires Before(order, p, q) && Before(order, q, r)
    ensures Before(order, p, r)
  {
    if |p| == |r| {
      var i :| 0 <= i < |p| && PartsAt(order, p, q, i);
      var j :| 0 <= j < |q| && PartsAt(order, q, r, j);
      var k := if i < j then i else j;
      assert p[..k] == p[..i][..k] && q[..k] == q[..j][..k] && r[..k] == r[..j][..k];
      if i < j {
        assert q[..j][i] == r[..j][i];
      } else if j < i {
        assert p[..i][j] == q[..i][j];
      }
      assert PartsAt(order, p, r, k);
    }
  }

  lemma LeastIsUnique<N(!new)>(allowed: map<N, set<N>>, order: seq<N>, from: N, p: seq<N>, q: seq<N>, to: N)
    requires IsLeast(allowed, order, from, p, to) && IsLeast(allowed, order, from, q, to)
    ensures p == q
  {
    if p != q { BeforeIsTransitive(order, p, q, p); }
  }

  lemma BeforeExtends<N>(order: seq<N>, p: seq<N>, q: seq<N>, m: N, n: N)
    requires Before(order, p, q)
    ensures Before(order, p + [m], q + [n])
  {
    if |p| == |q| {
      var i :| 0 <= i < |p| && PartsAt(order, p, q, i);
      assert (p + [m])[..i] == p[..i] && (q + [n])[..i] == q[..i];
      assert PartsAt(order, p + [m], q + [n], i);
    }
  }

  lemma SiblingsAreOrdered<N>(order: seq<N>, p: seq<N>, m: N, n: N)
    requires m in order && n in order && Rank(order, m) < Rank(order, n)
    ensures Before(order, p + [m], p + [n])
  {
    assert (p + [m])[..|p|] == (p + [n])[..|p|];
    assert PartsAt(order, p + [m], p + [n], |p|);
  }

  // ---- routes ----

  lemma {:induction false} RouteAppends<N>(allowed: map<N, set<N>>, from: N, path: seq<N>, mid: N, to: N)
    requires IsRoute(allowed, from, path, mid) && mid in allowed && to in allowed[mid]
    ensures IsRoute(allowed, from, path + [to], to)
  {
    if path == [] {
      assert [to][1..] == [] && path + [to] == [to];
    } else {
      assert (path + [to])[1..] == path[1..] + [to];
      RouteAppends(allowed, path[0], path[1..], mid, to);
    }
  }

  /** The first node of the route from `from` that is not settled, with the steps that lead to it. */
  lemma {:induction false} FirstUnsettled<N>(
      allowed: map<N, set<N>>, seen: set<N>, open: set<N>, from: N, path: seq<N>, to: N)
    returns (k: nat, node: N)
    requires from in seen && to !in seen && IsRoute(allowed, from, path, to)
    requires forall n <- seen - open :: n in allowed && allowed[n] <= seen
    ensures k < |path| && node in open && IsRoute(allowed, from, path[..k], node)
  {
    if from in open {
      k, node := 0, from;
    } else {
      k, node := FirstUnsettled(allowed, seen, open, path[0], path[1..], to);
      k := k + 1;
      assert path[..k][1..] == path[1..][..k - 1];
    }
  }

  ghost predicate IsLeast<N(!new)>(allowed: map<N, set<N>>, order: seq<N>, from: N, path: seq<N>, to: N) {
    && IsRoute(allowed, from, path, to)
    && forall p :: IsRoute(allowed, from, p, to) ==> AtMost(order, path, p)
  }

  /** Leaving the earliest open node for a node not yet seen gives that node's earliest route. */
  lemma NewRouteIsLeast<N(!new)>(
      allowed: map<N, set<N>>, order: seq<N>, from: N, best: map<N, seq<N>>, open: set<N>, node: N, next: N)
    requires IsTable(allowed, order) && from in best && next !in best && node in open && open <= best.Keys
    requires forall n <- best :: n in allowed && IsLeast(allowed, order, from, best[n], n)
    requires forall n <- best.Keys - open :: allowed[n] <= best.Keys
    requires forall n <- open :: AtMost(order, best[node], best[n])
    requires next in allowed[node]
    ensures IsLeast(allowed, order, from, best[node] + [next], next)
  {
    RouteAppends(allowed, from, best[node], node, next);
    forall p | IsRoute(allowed, from, p, next)
      ensures AtMost(order, best[node] + [next], p)
    {
      var k, mid := FirstUnsettled(allowed, best.Keys, open, from, p, next);
      assert AtMost(order, best[mid], p[..k]);
      if best[node] != p[..k] {
        if best[node] != best[mid] && best[mid] != p[..k] {
          BeforeIsTransitive(order, best[node], best[mid], p[..k]);
        }
        if |p| == |best[node]| + 1 {
          BeforeExtends(order, best[node], p[..k], next, p[k]);
          assert p == p[..k] + [p[k]];
        }
      } else if |p| == k + 1 {
        assert p == p[..k] + [p[k]];
        LastIsTarget(allowed, from, p, next);
      }
    }
  }

  lemma {:induction false} LastIsTarget<N>(allowed: map<N, set<N>>, from: N, path: seq<N>, to: N)
    requires path != [] && IsRoute(allowed, from, path, to)
    ensures path[|path| - 1] == to
  {
    if |path| > 1 { LastIsTarget(allowed, path[0], path[1..], to); }
  }

  // ---- the search ----

  ghost predicate Sorted<N>(order: seq<N>, queue: seq<(N, seq<N>)>) {
    forall i, j :: 0 <= i < j < |queue| ==> Before(order, queue[i].1, queue[j].1)
  }

  /** Every queued route is a step from a route before `path`, or a step from `path` to a node ranked below `next`. */
  ghost predicate StepsFrom<N>(order: seq<N>, queue: seq<(N, seq<N>)>, path: seq<N>, next: nat) {
    forall item <- queue :: item.1 != [] &&
      var last := |item.1| - 1;
      || Before(order, item.1[..last], path)
      || (item.1[..last] == path && item.1[last] in order && Rank(order, item.1[last]) < next)
  }

  /** `best` is the earliest route to each node seen; the open nodes are those whose successors may be unseen. */
  ghost predicate Explored<N(!new)>(
      allowed: map<N, set<N>>, order: seq<N>, from: N, queue: seq<(N, seq<N>)>, best: map<N, seq<N>>, open: set<N>) {
    && IsTable(allowed, order) && from in best && open <= best.Keys
    && (forall n <- best :: n in allowed && IsLeast(allowed, order, from, best[n], n))
    && (forall item <- queue :: item.0 in open && best[item.0] == item.1)
    && (forall n <- best.Keys - open :: allowed[n] <= best.Keys)
    && Sorted(order, queue)
  }

  /** Between two nodes: exactly the queued nodes are open. */
  ghost predicate Searching<N(!new)>(
      allowed: map<N, set<N>>, order: seq<N>, from: N, queue: seq<(N, seq<N>)>, best: map<N, seq<N>>, open: set<N>) {
    && Explored(allowed, order, from, queue, best, open)
    && (forall n <- open :: exists item <- queue :: item.0 == n)
    && (queue != [] ==> StepsFrom(order, queue[1..], queue[0].1, 0))
  }

  /** While the successors of `node` are visited: the first `i` of them have been seen. */
  ghost predicate Expanding<N(!new)>(
      allowed: map<N, set<N>>, order: seq<N>, from: N, queue: seq<(N, seq<N>)>, best: map<N, seq<N>>, open: set<N>,
      node: N, i: nat) {
    && Explored(allowed, order, from, queue, best, open)
    && (forall n <- open :: n == node || exists item <- queue :: item.0 == n)
    && node in open && node in best && node in allowed
    && (forall item <- queue :: Before(order, best[node], item.1))
    && var candidates := InOrder(order, allowed[node]);
       && i <= |candidates|
       && (forall j :: 0 <= j < i ==> candidates[j] in best)
       && StepsFrom(order, queue, best[node], if i < |candidates| then Rank(order, candidates[i]) else |order|)
  }

  lemma StartExpanding<N(!new)>(
      allowed: map<N, set<N>>, order: seq<N>, from: N, queue: seq<(N, seq<N>)>, best: map<N, seq<N>>, open: set<N>)
    requires Searching(allowed, order, from, queue, best, open) && queue != []
    ensures var node := queue[0].0;
            node in open && node in best && best[node] == queue[0].1 && node in allowed
    ensures Expanding(allowed, order, from, queue[1..], best, open, queue[0].0, 0)
  {
    assert queue[0] in queue;
    forall item | item in queue[1..]
      ensures item in queue && Before(order, queue[0].1, item.1)
    {
      var k :| 0 <= k < |queue| - 1 && queue[1..][k] == item;
      assert item == queue[k + 1];
    }
    forall n | n in open
      ensures n == queue[0].0 || exists item <- queue[1..] :: item.0 == n
    {
      var item :| item in queue && item.0 == n;
      assert item == queue[0] || item in queue[1..];
    }
  }

  lemma StepsAreBefore<N>(order: seq<N>, queue: seq<(N, seq<N>)>, path: seq<N>, n: N)
    requires n in order && StepsFrom(order, queue, path, Rank(order, n))
    ensures forall item <- queue :: Before(order, item.1, path + [n])
  {
    hide Before;
    BeforeIsIrreflexive(order, path);
    forall item | item in queue
      ensures Before(order, item.1, path + [n])
    {
      var last := |item.1| - 1;
      assert item.1 == item.1[..last] + [item.1[last]];
      if item.1[..last] == path {
        SiblingsAreOrdered(order, path, item.1[last], n);
      } else {
        BeforeExtends(order, item.1[..last], path, item.1[last], n);
      }
    }
  }

  lemma AppendKeepsSorted<N>(order: seq<N>, queue: seq<(N, seq<N>)>, path: seq<N>, n: N)
    requires n in order && Sorted(order, queue) && StepsFrom(order, queue, path, Rank(order, n))
    ensures Sorted(order, queue + [(n, path + [n])])
    ensures StepsFrom(order, queue + [(n, path + [n])], path, Rank(order, n) + 1)
  {
    StepsAreBefore(order, queue, path, n);
    hide Before;
    assert (path + [n])[..|path|] == path;
    assert forall i :: 0 <= i < |queue| ==> queue[i] in queue;
  }

  lemma StepsFromGrows<N>(order: seq<N>, queue: seq<(N, seq<N>)>, path: seq<N>, next: nat, later: nat)
    requires StepsFrom(order, queue, path, next) && next <= later
    ensures StepsFrom(order, queue, path, later)
  {
  }

  /** A successor already seen is passed over. */
  lemma Skip<N(!new)>(
      allowed: map<N, set<N>>, order: seq<N>, from: N, queue: seq<(N, seq<N>)>, best: map<N, seq<N>>, open: set<N>,
      node: N, i: nat)
    requires Expanding(allowed, order, from, queue, best, open, node, i) && i < |InOrder(order, allowed[node])|
    requires InOrder(order, allowed[node])[i] in best
    ensures Expanding(allowed, order, from, queue, best, open, node, i + 1)
  {
    hide IsLeast, Before, Sorted, StepsFrom, Explored, InOrder, Rank, IsTable;
    var candidates := InOrder(order, allowed[node]);
    var later := if i + 1 < |candidates| then Rank(order, candidates[i + 1]) else |order|;
    StepsFromGrows(order, queue, best[node], Rank(order, candidates[i]), later);
  }

  lemma ExploredGrows<N(!new)>(
      allowed: map<N, set<N>>, order: seq<N>, from: N, queue: seq<(N, seq<N>)>, best: map<N, seq<N>>, open: set<N>,
      next: N, path: seq<N>)
    requires Explored(allowed, order, from, queue, best, open) && next !in best && next in allowed
    requires IsLeast(allowed, order, from, path, next) && Sorted(order, queue + [(next, path)])
    ensures Explored(allowed, order, from, queue + [(next, path)], best[next := path], open + {next})
  {
    hide IsLeast, Before, Sorted;
    var grown := queue + [(next, path)];
    assert forall item <- grown :: item in queue || item == (next, path);
    assert forall n <- best.Keys - open :: allowed[n] <= best[next := path].Keys;
  }

  lemma CoverGrows<N>(queue: seq<(N, seq<N>)>, open: set<N>, node: N, next: N, path: seq<N>)
    requires forall n <- open :: n == node || exists item <- queue :: item.0 == n
    ensures forall n <- open + {next} :: n == node || exists item <- queue + [(next, path)] :: item.0 == n
  {
    var grown := queue + [(next, path)];
    assert grown[|queue|] == (next, path) && grown[|queue|] in grown && forall item <- queue :: item in grown;
  }

  /** A successor not yet seen: the route through `node` is its earliest, and comes after everything queued. */
  lemma VisitIsLeast<N(!new)>(
      allowed: map<N, set<N>>, order: seq<N>, from: N, queue: seq<(N, seq<N>)>, best: map<N, seq<N>>, open: set<N>,
      node: N, i: nat)
    requires Expanding(allowed, order, from, queue, best, open, node, i) && i < |InOrder(order, allowed[node])|
    requires InOrder(order, allowed[node])[i] !in best
    ensures var next := InOrder(order, allowed[node])[i];
            var path := best[node] + [next];
            && next in allowed && next in order && IsLeast(allowed, order, from, path, next)
            && Sorted(order, queue + [(next, path)])
            && StepsFrom(order, queue + [(next, path)], best[node], Rank(order, next) + 1)
  {
    hide IsLeast, Before, Sorted, StepsFrom;
    var candidates := InOrder(order, allowed[node]);
    var next := candidates[i];
    assert next in candidates && next in allowed[node] && next in order && next in allowed;
    OpenRoutesAreLater(allowed, order, from, queue, best, open, node);
    NewRouteIsLeast(allowed, order, from, best, open, node, next);
    AppendKeepsSorted(order, queue, best[node], next);
  }

  /** A successor not yet seen is queued with the route through `node`, which is its earliest. */
  lemma Visit<N(!new)>(
      allowed: map<N, set<N>>, order: seq<N>, from: N, queue: seq<(N, seq<N>)>, best: map<N, seq<N>>, open: set<N>,
      node: N, i: nat)
    requires Expanding(allowed, order, from, queue, best, open, node, i) && i < |InOrder(order, allowed[node])|
    requires InOrder(order, allowed[node])[i] !in best
    ensures var next := InOrder(order, allowed[node])[i];
            var path := best[node] + [next];
            && IsLeast(allowed, order, from, path, next)
            && Expanding(allowed, order, from, queue + [(next, path)], best[next := path], open + {next}, node, i + 1)
  {
    hide IsLeast, Before, Sorted, StepsFrom, Explored, InOrder, Rank, IsTable;
    var candidates := InOrder(order, allowed[node]);
    var next := candidates[i];
    var path := best[node] + [next];
    var grown := queue + [(next, path)];
    VisitIsLeast(allowed, order, from, queue, best, open, node, i);
    var later := if i + 1 < |candidates| then Rank(order, candidates[i + 1]) else |order|;
    StepsFromGrows(order, grown, best[node], Rank(order, next) + 1, later);
    ShorterIsBefore(order, best[node], path);
    ExploredGrows(allowed, order, from, queue, best, open, next, path);
    CoverGrows(queue, open, node, next, path);
    assert forall item <- grown :: item in queue || item == (next, path);
  }

  lemma OpenRoutesAreLater<N(!new)>(
      allowed: map<N, set<N>>, order: seq<N>, from: N, queue: seq<(N, seq<N>)>, best: map<N, seq<N>>, open: set<N>,
      node: N)
    requires Explored(allowed, order, from, queue, best, open) && node in open
    requires forall n <- open :: n == node || exists item <- queue :: item.0 == n
    requires forall item <- queue :: Before(order, best[node], item.1)
    ensures forall n <- open :: AtMost(order, best[node], best[n])
  {
  }

  lemma ShorterIsBefore<N>(order: seq<N>, p: seq<N>, q: seq<N>)
    requires |p| < |q|
    ensures Before(order, p, q)
  {
  }

  lemma FinishExpanding<N(!new)>(
      allowed: map<N, set<N>>, order: seq<N>, from: N, queue: seq<(N, seq<N>)>, best: map<N, seq<N>>, open: set<N>,
      node: N)
    requires node in open && node in allowed
    requires Expanding(allowed, order, from, queue, best, open, node, |InOrder(order, allowed[node])|)
    ensures Searching(allowed, order, from, queue, best, open - {node})
  {
    hide IsLeast, Before, Sorted, StepsFrom;
    var candidates := InOrder(order, allowed[node]);
    assert forall n <- allowed[node] :: n in candidates;
    BeforeIsIrreflexive(order, best[node]);
    assert forall item <- queue :: item.0 != node;
    if queue != [] {
      assert queue[0] in queue;
      StepsFromLater(order, queue, best[node], |order|, queue[0].1);
    }
  }

  lemma StepsFromLater<N>(order: seq<N>, queue: seq<(N, seq<N>)>, path: seq<N>, next: nat, later: seq<N>)
    requires StepsFrom(order, queue, path, next) && queue != [] && Before(order, path, later)
    ensures StepsFrom(order, queue[1..], later, 0)
  {
    hide Before;
    forall item | item in queue[1..]
      ensures item.1 != [] && Before(order, item.1[..|item.1| - 1], later)
    {
      assert item in queue;
      var parent := item.1[..|item.1| - 1];
      if parent != path { BeforeIsTransitive(order, parent, path, later); }
    }
  }

  lemma BeforeIsIrreflexive<N>(order: seq<N>, p: seq<N>)
    ensures !Before(order, p, p)
  {
  }

  lemma NothingLeft<N(!new)>(
      allowed: map<N, set<N>>, order: seq<N>, from: N, best: map<N, seq<N>>, open: set<N>, target: N)
    requires Searching(allowed, order, from, [], best, open) && target !in best
    ensures !Reachable(allowed, from, target)
  {
    assert open == {};
    if Reachable(allowed, from, target) {
      var p :| IsRoute(allowed, from, p, target);
      var k, n := FirstUnsettled(allowed, best.Keys, open, from, p, target);
    }
  }

  lemma EmptyRouteIsLeast<N(!new)>(allowed: map<N, set<N>>, order: seq<N>, from: N)
    requires IsTable(allowed, order) && from in allowed
    ensures IsLeast(allowed, order, from, [], from)
    ensures Searching(allowed, order, from, [(from, [])], map[from := []], {from})
  {
    var queue: seq<(N, seq<N>)> := [(from, [])];
    assert queue[0] in queue;
  }

  lemma LeastIsRoute<N(!new)>(allowed: map<N, set<N>>, order: seq<N>, from: N, path: seq<N>, to: N)
    ensures IsLeast(allowed, order, from, path, to) ==> IsRoute(allowed, from, path, to) && Reachable(allowed, from, to)
  {
  }

  /**
   * The earliest route in the fixed order among the shortest ones, or None when there is no route:
   * which makes the answer the same on every run.
   */
  method TransitionPath<N(==,!new)>(allowed: map<N, set<N>>, order: seq<N>, current: N, target: N)
    returns (route: Option<seq<N>>)
    requires IsTable(allowed, order) && current in allowed
    ensures route.Some? <==> Reachable(allowed, current, target)
    ensures route.Some? ==> IsLeast(allowed, order, current, route.value, target)
    ensures route == Some([]) <==> current == target
  {
    hide IsLeast, Searching, Expanding, IsTable, Reachable, IsRoute;
    EmptyRouteIsLeast(allowed, order, current);
    LeastIsRoute(allowed, order, current, [], current);
    if current == target {
      return Some([]);
    }
    var queue: seq<(N, seq<N>)> := [(current, [])];
    var seen := {current};
    ghost var best: map<N, seq<N>> := map[current := []];
    ghost var open := {current};
    while queue != []
      invariant seen == best.Keys && target !in seen
      invariant Searching(allowed, order, current, queue, best, open)
      decreases allowed.Keys - (best.Keys - open)
    {
      var (node, path) := queue[0];
      ghost var processed := best.Keys - open;
      StartExpanding(allowed, order, current, queue, best, open);
      queue := queue[1..];
      var candidates := InOrder(order, allowed[node]);
      var i := 0;
      while i < |candidates|
        invariant i <= |candidates| && seen == best.Keys && target !in seen && best.Keys - open == processed
        invariant Expanding(allowed, order, current, queue, best, open, node, i)
        invariant node in open && node in best && node in allowed && best[node] == path
      {
        var candidate := candidates[i];
        if candidate in seen {
          Skip(allowed, order, current, queue, best, open, node, i);
          i := i + 1;
          continue;
        }
        Visit(allowed, order, current, queue, best, open, node, i);
        i := i + 1;
        seen := seen + {candidate};
        var next := path + [candidate];
        if candidate == target {
          LeastIsRoute(allowed, order, current, next, target);
          return Some(next);
        }
        queue := queue + [(candidate, next)];
        best, open := best[candidate := next], open + {candidate};
      }
      FinishExpanding(allowed, order, current, queue, best, open, node);
      open := open - {node};
      assert best.Keys - open == processed + {node};
    }
    NothingLeft(allowed, order, current, best, open, target);
    return None;
  }
}
