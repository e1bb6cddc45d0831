/** graph_checks/routing_inefficiencies.py, third part: `_check_suboptimal_paths`, the breadth-first
    search from every network and the findings for the networks it reaches more than four hops
    away. */
module RoutingPaths {
  import opened Seqs
  import opened Bacnet
  import opened Reach
  import opened RoutingGraph
  import opened RoutingLoops

  // ---------------------------------------------------------------------------------------------
  // Specification

  /** `p` is a route of `d` hops from `s` to `t`. */
  ghost predicate Route(conn: map<Node, set<Node>>, s: Node, t: Node, p: seq<Node>, d: nat) {
    |p| == d + 1 && p[0] == s && p[|p| - 1] == t && Path(conn, p)
  }

  /** No route from `s` to `t` has fewer than `d` hops. */
  ghost predicate NoShorter(conn: map<Node, set<Node>>, s: Node, t: Node, d: nat) {
    forall v | Path(conn, v) && |v| > 0 && v[0] == s && v[|v| - 1] == t :: |v| - 1 >= d
  }

  /** Some route leads from `s` to `t`. */
  ghost predicate Linked(conn: map<Node, set<Node>>, s: Node, t: Node) {
    exists w | Path(conn, w) && |w| > 0 && w[0] == s :: w[|w| - 1] == t
  }

  /** Every route from `s` to `t` has more than four hops. */
  ghost predicate Far(conn: map<Node, set<Node>>, s: Node, t: Node) {
    forall v | Path(conn, v) && |v| > 0 && v[0] == s && v[|v| - 1] == t :: |v| - 1 > 4
  }

  /** What a path finding states: its path is a shortest route from its source to its target, of
      more than four hops, and the latency estimate is ten percent per hop after the first. */
  ghost predicate PathFinding(conn: map<Node, set<Node>>, x: Issue) {
    && x.SuboptimalPath? && x.issueType == "suboptimal-routing-path" && x.severity == Warning
    && Route(conn, x.sourceNetwork, x.targetNetwork, x.routingPath, x.pathLength)
    && NoShorter(conn, x.sourceNetwork, x.targetNetwork, x.pathLength)
    && x.pathLength > 4 && x.efficiencyLoss == (x.pathLength - 1) * 10
  }

  // ---------------------------------------------------------------------------------------------
  // The search

  /** The recorded part of the search: `distances`, `paths` and the insertion order of `distances`
      agree, and every recorded network has a route of its distance from the source. */
  ghost predicate Recorded(conn: map<Node, set<Node>>, source: Node, distances: map<Node, nat>,
                           paths: map<Node, seq<Node>>, order: seq<Node>) {
    && distances.Keys == paths.Keys == Elems(order) && Distinct(order)
    && distances.Keys <= Nodes(conn) + {source}
    && source in distances && distances[source] == 0
    && (forall t | t in distances :: Route(conn, source, t, paths[t], distances[t]))
  }

  /** The layers of the search: the networks still `open` (queued, or being expanded) lie `D` or
      `D + 1` hops away, the queue in order of distance, and no network is farther than `D + 1`. */
  ghost predicate Layered(distances: map<Node, nat>, queue: seq<Node>, open: set<Node>, D: nat) {
    && Elems(queue) <= open <= distances.Keys
    && (forall q | q in open :: D <= distances[q] <= D + 1)
    && (forall i, j | 0 <= i < j < |queue| :: distances[queue[i]] <= distances[queue[j]])
    && (forall x | x in distances :: distances[x] <= D + 1)
  }

  /** Every neighbour of an expanded network is recorded at most one hop farther. */
  ghost predicate Closed(conn: map<Node, set<Node>>, distances: map<Node, nat>, open: set<Node>) {
    forall x, y | x in distances && x !in open && y in Succ(conn, x) :: y in distances && distances[y] <= distances[x] + 1
  }

  /** What the search keeps true. */
  ghost predicate Searching(conn: map<Node, set<Node>>, source: Node, distances: map<Node, nat>,
                            paths: map<Node, seq<Node>>, order: seq<Node>, queue: seq<Node>, open: set<Node>, D: nat) {
    Recorded(conn, source, distances, paths, order) && Layered(distances, queue, open, D) && Closed(conn, distances, open)
  }

  lemma SearchStart(conn: map<Node, set<Node>>, source: Node)
    ensures Searching(conn, source, map[source := 0], map[source := [source]], [source], [source], {source}, 0)
  {
    assert Elems([source]) == {source};
  }

  /** Popping the head of the queue, whose distance becomes `D`. */
  lemma LayersPop(distances: map<Node, nat>, queue: seq<Node>, D: nat)
    requires Layered(distances, queue, Elems(queue), D) && queue != []
    ensures Elems(queue[1..]) + {queue[0]} == Elems(queue)
    ensures Layered(distances, queue[1..], Elems(queue), distances[queue[0]])
  {
    ElemsFront(queue);
    forall q | q in Elems(queue) ensures distances[queue[0]] <= distances[q] {
      var i :| 0 <= i < |queue| && queue[i] == q;
    }
    forall i, j | 0 <= i < j < |queue[1..]| ensures distances[queue[1..][i]] <= distances[queue[1..][j]] {
      assert queue[1..][i] == queue[i + 1] && queue[1..][j] == queue[j + 1];
    }
  }

  lemma SearchPop(conn: map<Node, set<Node>>, source: Node, distances: map<Node, nat>,
                  paths: map<Node, seq<Node>>, order: seq<Node>, queue: seq<Node>, D: nat)
    requires Searching(conn, source, distances, paths, order, queue, Elems(queue), D) && queue != []
    ensures Searching(conn, source, distances, paths, order, queue[1..], Elems(queue[1..]) + {queue[0]}, distances[queue[0]])
  {
    LayersPop(distances, queue, D);
  }

  lemma RecordedDiscover(conn: map<Node, set<Node>>, source: Node, distances: map<Node, nat>,
                         paths: map<Node, seq<Node>>, order: seq<Node>, current: Node, y: Node)
    requires Recorded(conn, source, distances, paths, order) && current in distances
    requires y in Succ(conn, current) && y !in distances
    ensures Recorded(conn, source, distances[y := distances[current] + 1], paths[y := paths[current] + [y]], order + [y])
  {
    PathStep(conn, paths[current], y);
    ElemsAppend(order, [y]);
    assert Elems([y]) == {y};
    DistinctSnoc(order, y);
  }

  lemma LayersDiscover(distances: map<Node, nat>, queue: seq<Node>, current: Node, y: Node)
    requires current in distances && Layered(distances, queue, Elems(queue) + {current}, distances[current])
    requires y !in distances
    ensures var d := distances[current];
      Layered(distances[y := d + 1], queue + [y], Elems(queue + [y]) + {current}, d)
  {
    var d := distances[current];
    ElemsAppend(queue, [y]);
    assert Elems([y]) == {y};
    var q := queue + [y];
    forall i, j | 0 <= i < j < |q| ensures distances[y := d + 1][q[i]] <= distances[y := d + 1][q[j]] {
      assert q[i] in Elems(q);
      if j < |queue| {
        assert q[i] == queue[i] && q[j] == queue[j];
      }
    }
  }

  lemma ClosedDiscover(conn: map<Node, set<Node>>, distances: map<Node, nat>, open: set<Node>, y: Node, d: nat)
    requires Closed(conn, distances, open) && y !in distances
    ensures Closed(conn, distances[y := d], open + {y})
  {
  }

  /** `distances[neighbor] = current_distance + 1; paths[neighbor] = paths[current] + [neighbor];
      queue.append(neighbor)` for a neighbour not recorded yet. */
  lemma SearchDiscover(conn: map<Node, set<Node>>, source: Node, distances: map<Node, nat>,
                       paths: map<Node, seq<Node>>, order: seq<Node>, queue: seq<Node>, current: Node, y: Node)
    requires current in distances && Searching(conn, source, distances, paths, order, queue, Elems(queue) + {current}, distances[current])
    requires y in Succ(conn, current) && y !in distances
    ensures var d := distances[current];
      Searching(conn, source, distances[y := d + 1], paths[y := paths[current] + [y]], order + [y], queue + [y],
                Elems(queue + [y]) + {current}, d)
  {
    var d := distances[current];
    RecordedDiscover(conn, source, distances, paths, order, current, y);
    LayersDiscover(distances, queue, current, y);
    ClosedDiscover(conn, distances, Elems(queue) + {current}, y, d + 1);
    ElemsAppend(queue, [y]);
    assert Elems([y]) == {y};
    assert Elems(queue) + {current} + {y} == Elems(queue + [y]) + {current};
  }

  /** With every neighbour of `current` recorded, `current` is expanded. */
  lemma SearchExpanded(conn: map<Node, set<Node>>, source: Node, distances: map<Node, nat>,
                       paths: map<Node, seq<Node>>, order: seq<Node>, queue: seq<Node>, current: Node)
    requires current in distances && Searching(conn, source, distances, paths, order, queue, Elems(queue) + {current}, distances[current])
    requires Succ(conn, current) <= distances.Keys
    ensures Searching(conn, source, distances, paths, order, queue, Elems(queue), distances[current])
  {
  }

  /** The loop over the neighbours of `current`. */
  method Expand(conn: map<Node, set<Node>>, ghost source: Node, current: Node, distances: map<Node, nat>,
                paths: map<Node, seq<Node>>, order: seq<Node>, queue: seq<Node>)
    returns (distances': map<Node, nat>, paths': map<Node, seq<Node>>, order': seq<Node>, queue': seq<Node>)
    requires current in distances && Searching(conn, source, distances, paths, order, queue, Elems(queue) + {current}, distances[current])
    ensures current in distances' && distances'[current] == distances[current]
    ensures Searching(conn, source, distances', paths', order', queue', Elems(queue'), distances[current])
    ensures distances.Keys <= distances'.Keys
    ensures distances'.Keys == distances.Keys ==> queue' == queue
  {
    var d := distances[current];
    var neighbours := ListOf(Succ(conn, current));
    distances', paths', order', queue' := distances, paths, order, queue;
    for k := 0 to |neighbours|
      invariant current in distances' && distances'[current] == d && distances.Keys <= distances'.Keys
      invariant Searching(conn, source, distances', paths', order', queue', Elems(queue') + {current}, d)
      invariant Elems(neighbours[..k]) <= distances'.Keys
      invariant distances'.Keys == distances.Keys ==> queue' == queue
    {
      assert neighbours[..k + 1] == neighbours[..k] + [neighbours[k]];
      ElemsAppend(neighbours[..k], [neighbours[k]]);
      var neighbor := neighbours[k];
      if neighbor !in distances' {
        SearchDiscover(conn, source, distances', paths', order', queue', current, neighbor);
        distances' := distances'[neighbor := d + 1];
        paths' := paths'[neighbor := paths'[current] + [neighbor]];
        queue' := queue' + [neighbor];
        order' := order' + [neighbor];
      }
    }
    assert neighbours[..|neighbours|] == neighbours;
    SearchExpanded(conn, source, distances', paths', order', queue', current);
  }

  /** A route from the source ends at a recorded network no farther than the route. */
  lemma {:induction false} RouteBound(conn: map<Node, set<Node>>, source: Node, distances: map<Node, nat>, w: seq<Node>)
    requires source in distances && distances[source] == 0 && Closed(conn, distances, {})
    requires Path(conn, w) && |w| > 0 && w[0] == source
    ensures w[|w| - 1] in distances && distances[w[|w| - 1]] <= |w| - 1
  {
    if |w| > 1 {
      var v := w[..|w| - 1];
      assert Path(conn, v) by {
        forall i | 0 <= i < |v| - 1 ensures v[i + 1] in Succ(conn, v[i]) {
          assert v[i] == w[i] && v[i + 1] == w[i + 1];
        }
      }
      RouteBound(conn, source, distances, v);
      assert w[|w| - 1] in Succ(conn, w[|w| - 2]);
    }
  }

  /** Once nothing is open, the recorded distances are the shortest, and the recorded networks
      are exactly those a route from the source reaches. */
  lemma SearchDone(conn: map<Node, set<Node>>, source: Node, distances: map<Node, nat>,
                   paths: map<Node, seq<Node>>, order: seq<Node>)
    requires Recorded(conn, source, distances, paths, order) && Closed(conn, distances, {})
    ensures forall t | t in distances :: NoShorter(conn, source, t, distances[t])
    ensures forall t :: t in distances <==> Linked(conn, source, t)
  {
    forall t | t in distances ensures NoShorter(conn, source, t, distances[t]) {
      forall v | Path(conn, v) && |v| > 0 && v[0] == source && v[|v| - 1] == t ensures |v| - 1 >= distances[t] {
        RouteBound(conn, source, distances, v);
      }
    }
    forall t ensures t in distances <==> Linked(conn, source, t) {
      if t in distances {
        assert Route(conn, source, t, paths[t], distances[t]);
        assert Path(conn, paths[t]) && |paths[t]| > 0 && paths[t][0] == source;
      }
      if Linked(conn, source, t) {
        var w :| Path(conn, w) && |w| > 0 && w[0] == source && w[|w| - 1] == t;
        RouteBound(conn, source, distances, w);
      }
    }
  }

  /** One round of the search: pop the head of the queue and expand it. Either a network is
      recorded or the queue shrinks. */
  method SearchStep(conn: map<Node, set<Node>>, ghost source: Node, distances: map<Node, nat>,
                    paths: map<Node, seq<Node>>, order: seq<Node>, queue: seq<Node>, ghost D: nat)
    returns (distances': map<Node, nat>, paths': map<Node, seq<Node>>, order': seq<Node>, queue': seq<Node>, ghost D': nat)
    requires Searching(conn, source, distances, paths, order, queue, Elems(queue), D) && queue != []
    ensures Searching(conn, source, distances', paths', order', queue', Elems(queue'), D')
    ensures distances.Keys <= distances'.Keys <= Nodes(conn) + {source}
    ensures distances'.Keys == distances.Keys ==> |queue'| < |queue|
  {
    var current := queue[0];
    SearchPop(conn, source, distances, paths, order, queue, D);
    D' := distances[current];
    distances', paths', order', queue' := Expand(conn, source, current, distances, paths, order, queue[1..]);
  }

  /** Recording more of a finite universe leaves less of it. */
  lemma Fewer<T>(universe: set<T>, a: set<T>, b: set<T>)
    requires a <= b <= universe
    ensures a == b || |universe - b| < |universe - a|
  {
    if a != b {
      var x :| x in b && x !in a;
      assert universe - a == (universe - b) + (b - a);
      assert (universe - b) * (b - a) == {};
      assert |b - a| >= 1 by {
        assert x in b - a;
      }
    }
  }

  /** The breadth-first search from `source`: the recorded networks, in insertion order, are
      exactly those a route from `source` reaches; each has a route of its distance, and no route
      to it is shorter. */
  method ShortestPaths(conn: map<Node, set<Node>>, source: Node)
    returns (distances: map<Node, nat>, paths: map<Node, seq<Node>>, order: seq<Node>)
    ensures Elems(order) == distances.Keys == paths.Keys && Distinct(order)
    ensures forall t | t in distances :: Route(conn, source, t, paths[t], distances[t]) && NoShorter(conn, source, t, distances[t])
    ensures forall t :: t in distances <==> Linked(conn, source, t)
  {
    distances, paths, order := map[source := 0], map[source := [source]], [source];
    var queue := [source];
    ghost var D := 0;
    SearchStart(conn, source);
    while queue != []
      invariant Searching(conn, source, distances, paths, order, queue, Elems(queue), D)
      decreases |Nodes(conn) + {source} - distances.Keys|, |queue|
    {
      ghost var before := distances.Keys;
      distances, paths, order, queue, D := SearchStep(conn, source, distances, paths, order, queue, D);
      Fewer(Nodes(conn) + {source}, before, distances.Keys);
    }
    assert Elems(queue) == {};
    SearchDone(conn, source, distances, paths, order);
  }

  // ---------------------------------------------------------------------------------------------
  // The findings

  /** The finding for a route of `distance` hops. */
  function PathIssue(source: Node, target: Node, distance: nat, path: seq<Node>): Issue {
    SuboptimalPath("suboptimal-routing-path", Warning, source, target, distance, path, (distance - 1) * 10)
  }

  /** The target of a path finding. */
  function TargetOf(x: Issue): Node {
    if x.SuboptimalPath? then x.targetNetwork else ""
  }

  /** The findings from one source: over the recorded networks in insertion order, one per network
      more than four hops away. */
  method PathsFrom(conn: map<Node, set<Node>>, source: Node) returns (found: seq<Issue>)
    ensures forall x | x in found :: PathFinding(conn, x) && x.sourceNetwork == source
    ensures forall a, b | 0 <= a < b < |found| :: TargetOf(found[a]) != TargetOf(found[b])
    ensures forall t | Linked(conn, source, t) && Far(conn, source, t) :: exists x | x in found :: TargetOf(x) == t
  {
    var distances, paths, order := ShortestPaths(conn, source);
    found := ReportFar(conn, source, distances, paths, order);
    FarReported(conn, source, distances, paths, found);
  }

  /** The findings from `source` so far: each states what `PathFinding` says, for a target in
      `done`, and no target twice. */
  ghost predicate Findings(conn: map<Node, set<Node>>, source: Node, found: seq<Issue>, done: set<Node>) {
    && (forall x | x in found :: PathFinding(conn, x) && x.sourceNetwork == source && TargetOf(x) in done)
    && (forall a, b | 0 <= a < b < |found| :: TargetOf(found[a]) != TargetOf(found[b]))
  }

  lemma FindingsGrow(conn: map<Node, set<Node>>, source: Node, found: seq<Issue>, done: set<Node>, more: set<Node>)
    requires Findings(conn, source, found, done) && done <= more
    ensures Findings(conn, source, found, more)
  {
  }

  /** Reporting a route to a target not reported yet. */
  lemma FindingsSnoc(conn: map<Node, set<Node>>, source: Node, found: seq<Issue>, done: set<Node>,
                     target: Node, path: seq<Node>, distance: nat)
    requires Findings(conn, source, found, done) && target !in done
    requires Route(conn, source, target, path, distance) && NoShorter(conn, source, target, distance) && distance > 4
    ensures Findings(conn, source, found + [PathIssue(source, target, distance, path)], done + {target})
    ensures forall x | x in found :: x in found + [PathIssue(source, target, distance, path)]
  {
    var all := found + [PathIssue(source, target, distance, path)];
    forall a, b | 0 <= a < b < |all| ensures TargetOf(all[a]) != TargetOf(all[b]) {
      assert all[a] == found[a] && found[a] in found;
    }
  }

  /** Every recorded network has a shortest route of its recorded distance. */
  ghost predicate Shortest(conn: map<Node, set<Node>>, source: Node, distances: map<Node, nat>, paths: map<Node, seq<Node>>) {
    forall t | t in distances :: t in paths && Route(conn, source, t, paths[t], distances[t]) && NoShorter(conn, source, t, distances[t])
  }

  /** The first `i` networks of `order` are handled: the findings are those `Findings` describes
      for them, and each of them more than four hops away has one. */
  ghost predicate FarUpTo(conn: map<Node, set<Node>>, source: Node, distances: map<Node, nat>, order: seq<Node>,
                          i: nat, found: seq<Issue>) {
    && i <= |order|
    && Findings(conn, source, found, Elems(order[..i]))
    && forall k | 0 <= k < i && order[k] in distances && distances[order[k]] > 4 :: exists x | x in found :: TargetOf(x) == order[k]
  }

  /** The findings after the `i`-th network of `order`. */
  function FarNext(source: Node, distances: map<Node, nat>, paths: map<Node, seq<Node>>, target: Node,
                   found: seq<Issue>): seq<Issue>
    requires target in distances && target in paths
  {
    if distances[target] > 4 then found + [PathIssue(source, target, distances[target], paths[target])] else found
  }

  /** One step of the loop over the distances. */
  lemma FarStep(conn: map<Node, set<Node>>, source: Node, distances: map<Node, nat>,
                paths: map<Node, seq<Node>>, order: seq<Node>, i: nat, found: seq<Issue>)
    requires Elems(order) == distances.Keys == paths.Keys && Distinct(order)
    requires Shortest(conn, source, distances, paths)
    requires i < |order| && FarUpTo(conn, source, distances, order, i, found)
    ensures FarUpTo(conn, source, distances, order, i + 1, FarNext(source, distances, paths, order[i], found))
  {
    assert order[..i + 1] == order[..i] + [order[i]];
    ElemsAppend(order[..i], [order[i]]);
    var target := order[i];
    if distances[target] > 4 {
      assert target !in Elems(order[..i]) by {
        assert Distinct(order[..i] + [order[i]]);
      }
      assert Route(conn, source, target, paths[target], distances[target]) && NoShorter(conn, source, target, distances[target]);
      FarReport(conn, source, distances, order, i, found, paths[target]);
    } else {
      FarSkip(conn, source, distances, order, i, found);
    }
  }

  /** The step for a network more than four hops away: one more finding. */
  lemma FarReport(conn: map<Node, set<Node>>, source: Node, distances: map<Node, nat>, order: seq<Node>, i: nat,
                  found: seq<Issue>, path: seq<Node>)
    requires i < |order| && order[i] !in Elems(order[..i]) && order[i] in distances
    requires Elems(order[..i + 1]) == Elems(order[..i]) + {order[i]}
    requires FarUpTo(conn, source, distances, order, i, found)
    requires Route(conn, source, order[i], path, distances[order[i]]) && NoShorter(conn, source, order[i], distances[order[i]])
    requires distances[order[i]] > 4
    ensures FarUpTo(conn, source, distances, order, i + 1, found + [PathIssue(source, order[i], distances[order[i]], path)])
  {
    var target, distance := order[i], distances[order[i]];
    var next := found + [PathIssue(source, target, distance, path)];
    FindingsSnoc(conn, source, found, Elems(order[..i]), target, path, distance);
    forall k | 0 <= k < i + 1 && order[k] in distances && distances[order[k]] > 4
      ensures exists x | x in next :: TargetOf(x) == order[k]
    {
      if k < i {
        var x :| x in found && TargetOf(x) == order[k];
        assert x in next;
      } else {
        assert next[|next| - 1] in next;
      }
    }
  }

  /** The step for a network at most four hops away: nothing new. */
  lemma FarSkip(conn: map<Node, set<Node>>, source: Node, distances: map<Node, nat>, order: seq<Node>, i: nat, found: seq<Issue>)
    requires i < |order| && FarUpTo(conn, source, distances, order, i, found)
    requires order[i] in distances && distances[order[i]] <= 4
    requires Elems(order[..i + 1]) == Elems(order[..i]) + {order[i]}
    ensures FarUpTo(conn, source, distances, order, i + 1, found)
  {
    FindingsGrow(conn, source, found, Elems(order[..i]), Elems(order[..i + 1]));
  }

  /** The loop over the distances of one search. */
  method ReportFar(ghost conn: map<Node, set<Node>>, source: Node, distances: map<Node, nat>,
                   paths: map<Node, seq<Node>>, order: seq<Node>) returns (found: seq<Issue>)
    requires Elems(order) == distances.Keys == paths.Keys && Distinct(order)
    requires Shortest(conn, source, distances, paths)
    ensures forall x | x in found :: PathFinding(conn, x) && x.sourceNetwork == source
    ensures forall a, b | 0 <= a < b < |found| :: TargetOf(found[a]) != TargetOf(found[b])
    ensures forall t | t in distances && distances[t] > 4 :: exists x | x in found :: TargetOf(x) == t
  {
    found := [];
    for i := 0 to |order|
      invariant FarUpTo(conn, source, distances, order, i, found)
    {
      FarStep(conn, source, distances, paths, order, i, found);
      var target := order[i];
      if distances[target] > 4 {
        found := found + [PathIssue(source, target, distances[target], paths[target])];
      }
    }
    FarEnd(conn, source, distances, order, found);
  }

  /** When every network of `order` is handled, every recorded network more than four hops away
      has a finding. */
  lemma FarEnd(conn: map<Node, set<Node>>, source: Node, distances: map<Node, nat>, order: seq<Node>, found: seq<Issue>)
    requires Elems(order) == distances.Keys && FarUpTo(conn, source, distances, order, |order|, found)
    ensures forall x | x in found :: PathFinding(conn, x) && x.sourceNetwork == source
    ensures forall a, b | 0 <= a < b < |found| :: TargetOf(found[a]) != TargetOf(found[b])
    ensures forall t | t in distances && distances[t] > 4 :: exists x | x in found :: TargetOf(x) == t
  {
    forall t | t in distances && distances[t] > 4 ensures exists x | x in found :: TargetOf(x) == t {
      var k :| 0 <= k < |order| && order[k] == t;
    }
  }

  /** A network every route reaches only in more than four hops is recorded more than four hops
      away. */
  lemma FarReported(conn: map<Node, set<Node>>, source: Node, distances: map<Node, nat>,
                    paths: map<Node, seq<Node>>, found: seq<Issue>)
    requires paths.Keys == distances.Keys
    requires forall t | t in distances :: Route(conn, source, t, paths[t], distances[t])
    requires forall t :: t in distances <==> Linked(conn, source, t)
    requires forall t | t in distances && distances[t] > 4 :: exists x | x in found :: TargetOf(x) == t
    ensures forall t | Linked(conn, source, t) && Far(conn, source, t) :: exists x | x in found :: TargetOf(x) == t
  {
    forall t | Linked(conn, source, t) && Far(conn, source, t) ensures exists x | x in found :: TargetOf(x) == t {
      assert Route(conn, source, t, paths[t], distances[t]);
      assert Path(conn, paths[t]) && |paths[t]| > 0 && paths[t][0] == source;
    }
  }

  /** The source and target of a path finding. */
  function EndsOf(x: Issue): (Node, Node) {
    if x.SuboptimalPath? then (x.sourceNetwork, x.targetNetwork) else ("", "")
  }

  /** `_check_suboptimal_paths`: the findings from every network, in the set's iteration order.
      Each states what `PathFinding` says from a network of the graph; no source and target pair
      twice; and every network that some route from a network of the graph reaches, but none in
      four hops or fewer, is reported for that source. */
  method CheckSuboptimalPaths(rg: RoutingGraph) returns (issues: seq<Issue>)
    ensures forall x | x in issues :: PathFinding(rg.connections, x) && x.sourceNetwork in rg.allNetworks
    ensures forall a, b | 0 <= a < b < |issues| :: EndsOf(issues[a]) != EndsOf(issues[b])
    ensures forall s, t | s in rg.allNetworks && Linked(rg.connections, s, t) && Far(rg.connections, s, t) ::
      exists x | x in issues :: EndsOf(x) == (s, t)
  {
    var sources := ListOf(rg.allNetworks);
    issues := [];
    for i := 0 to |sources|
      invariant forall x | x in issues :: PathFinding(rg.connections, x) && x.sourceNetwork in Elems(sources[..i])
      invariant forall a, b | 0 <= a < b < |issues| :: EndsOf(issues[a]) != EndsOf(issues[b])
      invariant forall s, t | s in Elems(sources[..i]) && Linked(rg.connections, s, t) && Far(rg.connections, s, t) ::
        exists x | x in issues :: EndsOf(x) == (s, t)
    {
      assert sources[..i + 1] == sources[..i] + [sources[i]];
      ElemsAppend(sources[..i], [sources[i]]);
      var found := PathsFrom(rg.connections, sources[i]);
      AppendFrom(rg.connections, Elems(sources[..i]), sources[i], issues, found);
      issues := issues + found;
    }
    assert sources[..|sources|] == sources;
  }

  /** Appending the findings from a new source keeps the pairs apart and the coverage. */
  lemma AppendFrom(conn: map<Node, set<Node>>, done: set<Node>, source: Node, issues: seq<Issue>, found: seq<Issue>)
    requires source !in done
    requires forall x | x in issues :: PathFinding(conn, x) && x.sourceNetwork in done
    requires forall a, b | 0 <= a < b < |issues| :: EndsOf(issues[a]) != EndsOf(issues[b])
    requires forall s, t | s in done && Linked(conn, s, t) && Far(conn, s, t) :: exists x | x in issues :: EndsOf(x) == (s, t)
    requires forall x | x in found :: PathFinding(conn, x) && x.sourceNetwork == source
    requires forall a, b | 0 <= a < b < |found| :: TargetOf(found[a]) != TargetOf(found[b])
    requires forall t | Linked(conn, source, t) && Far(conn, source, t) :: exists x | x in found :: TargetOf(x) == t
    ensures forall x | x in issues + found :: PathFinding(conn, x) && x.sourceNetwork in done + {source}
    ensures forall a, b | 0 <= a < b < |issues + found| :: EndsOf((issues + found)[a]) != EndsOf((issues + found)[b])
    ensures forall s, t | s in done + {source} && Linked(conn, s, t) && Far(conn, s, t) ::
      exists x | x in issues + found :: EndsOf(x) == (s, t)
  {
    var all := issues + found;
    forall a, b | 0 <= a < b < |all| ensures EndsOf(all[a]) != EndsOf(all[b]) {
      if b < |issues| {
        assert all[a] == issues[a] && all[b] == issues[b];
      } else if a < |issues| {
        assert all[a] in issues && all[b] in found;
      } else {
        assert all[a] == found[a - |issues|] && all[b] == found[b - |issues|];
        assert all[a] in found && all[b] in found;
      }
    }
    forall s, t | s in done + {source} && Linked(conn, s, t) && Far(conn, s, t) ensures exists x | x in all :: EndsOf(x) == (s, t) {
      if s in done {
        var x :| x in issues && EndsOf(x) == (s, t);
        assert x in all;
      } else {
        var x :| x in found && TargetOf(x) == t;
        assert x in all && EndsOf(x) == (s, t);
      }
    }
  }
}
