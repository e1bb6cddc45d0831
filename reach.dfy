/** Reachability over an adjacency relation between nodes, and the breadth-first search that
    collects it (the `get_reachable_networks` closure of graph_checks/unreachable_networks.py). */
module Reach {
  import opened Seqs
  import opened Bacnet

  /** A read of a `defaultdict(set)`: the set stored under `a`, or the empty set. */
  function Succ(conn: map<Node, set<Node>>, a: Node): (r: set<Node>)
    ensures a !in conn ==> r == {}
  {
    if a in conn then conn[a] else {}
  }

  /** A walk: every node after the first is adjacent to the one before it. */
  ghost predicate Walk(adj: Node -> set<Node>, p: seq<Node>) {
    forall i | 0 <= i < |p| - 1 :: p[i + 1] in adj(p[i])
  }

  /** `b` can be reached from `a` in zero or more steps. */
  ghost predicate Reaches(adj: Node -> set<Node>, a: Node, b: Node) {
    exists p: seq<Node> :: Walk(adj, p) && |p| >= 1 && p[0] == a && p[|p| - 1] == b
  }

  /** Every step out of `s` stays inside `s`. */
  ghost predicate Closed(adj: Node -> set<Node>, s: set<Node>) {
    forall a | a in s :: adj(a) <= s
  }

  /** Adjacency goes both ways. */
  ghost predicate Symmetric(adj: Node -> set<Node>, universe: set<Node>) {
    forall a, b | a in universe && b in adj(a) :: a in adj(b)
  }

  /** Everything reachable from `a`, inside a closed `universe` that holds `a`. */
  ghost function ReachSet(adj: Node -> set<Node>, universe: set<Node>, a: Node): set<Node> {
    set b | b in universe && Reaches(adj, a, b)
  }

  lemma ReachesSelf(adj: Node -> set<Node>, a: Node)
    ensures Reaches(adj, a, a)
  {
    assert Walk(adj, [a]);
  }

  /** One more step extends a walk. */
  lemma ReachesStep(adj: Node -> set<Node>, a: Node, b: Node, c: Node)
    requires Reaches(adj, a, b) && c in adj(b)
    ensures Reaches(adj, a, c)
  {
    var p :| Walk(adj, p) && |p| >= 1 && p[0] == a && p[|p| - 1] == b;
    var q := p + [c];
    assert forall i | 0 <= i < |p| :: q[i] == p[i];
    assert Walk(adj, q);
  }

  /** A closed set that holds the start of a walk holds the whole walk. */
  lemma {:induction false} ClosedWalk(adj: Node -> set<Node>, s: set<Node>, p: seq<Node>)
    requires Closed(adj, s) && Walk(adj, p) && |p| >= 1 && p[0] in s
    ensures p[|p| - 1] in s
  {
    if |p| > 1 {
      var q := p[..|p| - 1];
      assert Walk(adj, q);
      ClosedWalk(adj, s, q);
      assert p[|p| - 1] in adj(q[|q| - 1]);
    }
  }

  /** A closed set that holds `a` holds everything `a` reaches. */
  lemma ClosedReach(adj: Node -> set<Node>, s: set<Node>, a: Node, b: Node)
    requires Closed(adj, s) && a in s && Reaches(adj, a, b)
    ensures b in s
  {
    var p :| Walk(adj, p) && |p| >= 1 && p[0] == a && p[|p| - 1] == b;
    ClosedWalk(adj, s, p);
  }

  /** Walks compose. */
  lemma ReachesTrans(adj: Node -> set<Node>, a: Node, b: Node, c: Node)
    requires Reaches(adj, a, b) && Reaches(adj, b, c)
    ensures Reaches(adj, a, c)
  {
    var p :| Walk(adj, p) && |p| >= 1 && p[0] == a && p[|p| - 1] == b;
    var q :| Walk(adj, q) && |q| >= 1 && q[0] == b && q[|q| - 1] == c;
    var w := p + q[1..];
    assert forall i | 0 <= i < |p| :: w[i] == p[i];
    assert forall i | |p| <= i < |w| :: w[i] == q[i - |p| + 1];
    assert Walk(adj, w);
  }

  /** The reverse of a walk is a walk when adjacency goes both ways. */
  lemma ReachesBack(adj: Node -> set<Node>, universe: set<Node>, a: Node, b: Node)
    requires Closed(adj, universe) && Symmetric(adj, universe) && a in universe
    requires Reaches(adj, a, b)
    ensures Reaches(adj, b, a)
  {
    var p :| Walk(adj, p) && |p| >= 1 && p[0] == a && p[|p| - 1] == b;
    forall i | 0 <= i < |p| ensures p[i] in universe {
      ClosedWalk(adj, universe, p[..i + 1]);
    }
    var q := seq(|p|, i requires 0 <= i < |p| => p[|p| - 1 - i]);
    assert Walk(adj, q) by {
      forall i | 0 <= i < |q| - 1 ensures q[i + 1] in adj(q[i]) {
        var k := |p| - 2 - i;
        assert q[i + 1] == p[k] && q[i] == p[k + 1];
        assert p[k + 1] in adj(p[k]);
      }
    }
  }

  /** Reachable sets of two members of a closed, symmetric universe are equal or disjoint:
      they are the classes of an equivalence. */
  lemma ReachSetShared(adj: Node -> set<Node>, universe: set<Node>, a: Node, b: Node)
    requires Closed(adj, universe) && Symmetric(adj, universe) && a in universe
    requires b in ReachSet(adj, universe, a)
    ensures ReachSet(adj, universe, b) == ReachSet(adj, universe, a)
  {
    ReachesBack(adj, universe, a, b);
    forall c | c in universe && Reaches(adj, b, c) ensures Reaches(adj, a, c) {
      ReachesTrans(adj, a, b, c);
    }
    forall c | c in universe && Reaches(adj, a, c) ensures Reaches(adj, b, c) {
      ReachesTrans(adj, b, a, c);
    }
  }

  /** Either equal or disjoint. */
  lemma ReachSetsDisjoint(adj: Node -> set<Node>, universe: set<Node>, a: Node, b: Node)
    requires Closed(adj, universe) && Symmetric(adj, universe) && a in universe && b in universe
    requires ReachSet(adj, universe, a) != ReachSet(adj, universe, b)
    ensures ReachSet(adj, universe, a) !! ReachSet(adj, universe, b)
  {
    if c :| c in ReachSet(adj, universe, a) && c in ReachSet(adj, universe, b) {
      ReachSetShared(adj, universe, a, c);
      ReachSetShared(adj, universe, b, c);
    }
  }

  /** The start of a search is in its reachable set. */
  lemma ReachSetHasStart(adj: Node -> set<Node>, universe: set<Node>, a: Node)
    requires a in universe
    ensures a in ReachSet(adj, universe, a)
  {
    ReachesSelf(adj, a);
  }

  // ---------------------------------------------------------------------------------------------
  // Breadth-first search

  /** `for connected in network_connections[current]: if connected not in visited:
      queue.append(connected)`, over the set in its iteration order (any order). */
  method Enqueue(next: set<Node>, visited: set<Node>, queue: seq<Node>) returns (r: seq<Node>)
    ensures Elems(r) == Elems(queue) + (next - visited)
  {
    r := queue;
    var rest := next;
    while rest != {}
      invariant rest <= next
      invariant Elems(r) == Elems(queue) + (next - rest - visited)
      decreases |rest|
    {
      var connected :| connected in rest;
      ElemsAppend(r, [connected]);
      assert Elems([connected]) == {connected};
      if connected !in visited {
        r := r + [connected];
      }
      rest := rest - {connected};
    }
  }

  /** What a breadth-first search from `start` keeps true: what it has visited or still has
      queued lies in the universe and is reachable, the start is among them, and every step out of
      a visited node lands on a visited or queued node. */
  ghost predicate Frontier(adj: Node -> set<Node>, universe: set<Node>, start: Node,
                           visited: set<Node>, pending: set<Node>) {
    && visited <= universe && pending <= universe
    && (forall v | v in visited + pending :: Reaches(adj, start, v))
    && start in visited + pending
    && (forall v | v in visited :: adj(v) <= visited + pending)
  }

  /** A search starts with only `start` queued. */
  lemma FrontierStart(adj: Node -> set<Node>, universe: set<Node>, start: Node)
    requires start in universe
    ensures Frontier(adj, universe, start, {}, Elems([start]))
  {
    ReachesSelf(adj, start);
    assert Elems([start]) == {start};
  }

  /** Dropping a queued node that was already visited. */
  lemma FrontierSkip(adj: Node -> set<Node>, universe: set<Node>, start: Node,
                     visited: set<Node>, current: Node, rest: set<Node>)
    requires Frontier(adj, universe, start, visited, {current} + rest) && current in visited
    ensures Frontier(adj, universe, start, visited, rest)
  {
  }

  /** Visiting a queued node and queueing its unvisited neighbours. */
  lemma FrontierVisit(adj: Node -> set<Node>, universe: set<Node>, start: Node,
                      visited: set<Node>, current: Node, rest: set<Node>)
    requires Closed(adj, universe)
    requires Frontier(adj, universe, start, visited, {current} + rest) && current !in visited
    ensures Frontier(adj, universe, start, visited + {current}, rest + (adj(current) - (visited + {current})))
  {
    forall v | v in adj(current) ensures Reaches(adj, start, v) {
      ReachesStep(adj, start, current, v);
    }
  }

  /** With nothing left in the queue, the visited nodes are exactly the reachable ones. */
  lemma FrontierDone(adj: Node -> set<Node>, universe: set<Node>, start: Node, visited: set<Node>)
    requires Frontier(adj, universe, start, visited, {})
    ensures visited == ReachSet(adj, universe, start)
  {
    assert visited + {} == visited;
    forall b | b in ReachSet(adj, universe, start) ensures b in visited {
      ClosedReach(adj, visited, start, b);
    }
  }

  /** One turn of the search loop: pop the head of the queue; unless it was visited already,
      visit it and queue its unvisited neighbours. */
  method Visit(conn: map<Node, set<Node>>, ghost adj: Node -> set<Node>, ghost universe: set<Node>,
               ghost start: Node, visited: set<Node>, reachable: set<Node>, queue: seq<Node>)
    returns (visited': set<Node>, reachable': set<Node>, queue': seq<Node>)
    requires forall a :: Succ(conn, a) == adj(a)
    requires Closed(adj, universe) && queue != [] && visited == reachable
    requires Frontier(adj, universe, start, visited, Elems(queue))
    ensures Frontier(adj, universe, start, visited', Elems(queue'))
    ensures visited' == reachable' == visited + {queue[0]} && queue[0] in universe
    ensures queue[0] in visited ==> queue' == queue[1..]
  {
    var current := queue[0];
    ElemsFront(queue);
    queue' := queue[1..];
    if current in visited {
      FrontierSkip(adj, universe, start, visited, current, Elems(queue'));
      visited', reachable' := visited, reachable;
      return;
    }
    FrontierVisit(adj, universe, start, visited, current, Elems(queue'));
    visited' := visited + {current};
    reachable' := reachable + {current};
    queue' := Enqueue(Succ(conn, current), visited', queue');
  }

  /** `get_reachable_networks`: the breadth-first search from `start` visits exactly the nodes
      `start` reaches, when the connection map stores the adjacency and `universe` is closed. */
  method Explore(conn: map<Node, set<Node>>, ghost adj: Node -> set<Node>, ghost universe: set<Node>,
                 start: Node) returns (reachable: set<Node>)
    requires forall a :: Succ(conn, a) == adj(a)
    requires start in universe && Closed(adj, universe)
    ensures reachable == ReachSet(adj, universe, start)
  {
    reachable := {};
    var queue := [start];
    var visited: set<Node> := {};
    FrontierStart(adj, universe, start);
    while queue != []
      invariant visited == reachable
      invariant Frontier(adj, universe, start, visited, Elems(queue))
      decreases |universe - visited|, |queue|
    {
      ghost var before := visited;
      visited, reachable, queue := Visit(conn, adj, universe, start, visited, reachable, queue);
      assert visited == before || universe - visited < universe - before;
    }
    assert Elems(queue) == {};
    FrontierDone(adj, universe, start, visited);
  }
}
