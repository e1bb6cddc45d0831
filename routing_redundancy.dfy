/** graph_checks/routing_inefficiencies.py, fifth part: `_check_missing_redundancy`, Tarjan's
    search for articulation points over the network connections. */
module RoutingRedundancy {
  import opened Seqs
  import opened Bacnet
  import opened Reach
  import opened RoutingGraph
  import RoutingLoops
  import opened RoutingLinks

  /** Two different members make a set of at least two. */
  lemma TwoInSet(s: set<Node>, a: Node, b: Node)
    requires a in s && b in s && a != b
    ensures |s| >= 2
  {
    var rest := s - {a};
    assert b in rest;
    assert s == rest + {a};
  }

  /** What the articulation search keeps true of its state. Discovery times and low links are
      kept for exactly the visited networks; a low link never exceeds its discovery time, which is
      below the clock; a search parent is visited and connected to its child; and, where
      connections go both ways, every point found has at least two neighbours. */
  ghost predicate Searched(conn: map<Node, set<Node>>, universe: set<Node>, visited: set<Node>, disc: map<Node, nat>,
                           low: map<Node, nat>, parent: map<Node, Node>, points: set<Node>, time: nat) {
    && (forall a | a in conn :: conn[a] <= universe) && visited <= universe
    && disc.Keys == visited && low.Keys == visited
    && (forall x | x in visited :: low[x] <= disc[x] < time)
    && (forall x | x in parent :: parent[x] in visited && x in Succ(conn, parent[x]))
    && points <= visited
    && (BothWays(conn) ==> forall p | p in points :: |Succ(conn, p)| >= 2)
  }

  /** `visited.add(u); disc[u] = low[u] = time[0]; time[0] += 1`. */
  lemma SearchedVisit(conn: map<Node, set<Node>>, universe: set<Node>, visited: set<Node>, disc: map<Node, nat>,
                      low: map<Node, nat>, parent: map<Node, Node>, points: set<Node>, time: nat, u: Node)
    requires Searched(conn, universe, visited, disc, low, parent, points, time) && u in universe
    ensures Searched(conn, universe, visited + {u}, disc[u := time], low[u := time], parent, points, time + 1)
  {
  }

  /** `parent[v] = u` for a neighbour `v` of a visited `u`. */
  lemma SearchedParent(conn: map<Node, set<Node>>, universe: set<Node>, visited: set<Node>, disc: map<Node, nat>,
                       low: map<Node, nat>, parent: map<Node, Node>, points: set<Node>, time: nat, u: Node, v: Node)
    requires Searched(conn, universe, visited, disc, low, parent, points, time) && u in visited && v in Succ(conn, u)
    ensures Searched(conn, universe, visited, disc, low, parent[v := u], points, time)
  {
  }

  /** `low[u] = min(low[u], ...)`. */
  lemma SearchedLower(conn: map<Node, set<Node>>, universe: set<Node>, visited: set<Node>, disc: map<Node, nat>,
                      low: map<Node, nat>, parent: map<Node, Node>, points: set<Node>, time: nat, u: Node, m: nat)
    requires Searched(conn, universe, visited, disc, low, parent, points, time) && u in visited && m <= low[u]
    ensures Searched(conn, universe, visited, disc, low[u := m], parent, points, time)
  {
  }

  /** `articulation_points.add(u)` for a visited `u` with two neighbours where connections go both
      ways. */
  lemma SearchedPoint(conn: map<Node, set<Node>>, universe: set<Node>, visited: set<Node>, disc: map<Node, nat>,
                      low: map<Node, nat>, parent: map<Node, Node>, points: set<Node>, time: nat, u: Node)
    requires Searched(conn, universe, visited, disc, low, parent, points, time) && u in visited
    requires BothWays(conn) ==> |Succ(conn, u)| >= 2
    ensures Searched(conn, universe, visited, disc, low, parent, points + {u}, time)
  {
  }

  /** A second search child, or a search child besides the search parent, gives `u` two
      neighbours where connections go both ways. */
  lemma ChildMakesTwo(conn: map<Node, set<Node>>, parent: map<Node, Node>, u: Node, v: Node, children: nat, firstChild: Node)
    requires v in Succ(conn, u) && firstChild in Succ(conn, u) && (children > 1 ==> firstChild != v)
    requires u in parent ==> u in Succ(conn, parent[u]) && parent[u] != v
    ensures BothWays(conn) && (children > 1 || u in parent) ==> |Succ(conn, u)| >= 2
  {
    if BothWays(conn) {
      if children > 1 {
        TwoInSet(Succ(conn, u), firstChild, v);
      } else if u in parent {
        TwoInSet(Succ(conn, u), parent[u], v);
      }
    }
  }

  /** `parent'` keeps every search parent of `parent` and sets new ones only outside `visited`. */
  ghost predicate Extends(parent: map<Node, Node>, parent': map<Node, Node>, visited: set<Node>) {
    && (forall x | x in parent :: x in parent' && parent'[x] == parent[x])
    && (forall x | x in parent' && x !in parent :: x !in visited)
  }

  lemma ExtendsTrans(p0: map<Node, Node>, p1: map<Node, Node>, p2: map<Node, Node>, v0: set<Node>, v1: set<Node>)
    requires Extends(p0, p1, v0) && Extends(p1, p2, v1) && v0 <= v1
    ensures Extends(p0, p2, v0)
  {
  }

  /** The state `find_articulation_points` shares between the calls of its nested `bridge_util`:
      the visited networks, discovery times, low links, search parents, the points found and the
      clock. */
  class ArticulationSearch {
    const conn: map<Node, set<Node>>
    ghost const universe: set<Node>
    var visited: set<Node>
    var disc: map<Node, nat>
    var low: map<Node, nat>
    var parent: map<Node, Node>
    var points: set<Node>
    var time: nat

    ghost predicate Valid()
      reads this
    {
      Searched(conn, universe, visited, disc, low, parent, points, time)
    }

    constructor (conn: map<Node, set<Node>>, networks: set<Node>)
      ensures this.conn == conn && universe == RoutingLoops.Nodes(conn) + networks
      ensures visited == {} && parent == map[] && points == {} && time == 0
      ensures Valid()
    {
      this.conn := conn;
      universe := RoutingLoops.Nodes(conn) + networks;
      visited, disc, low, parent, points, time := {}, map[], map[], map[], {}, 0;
    }

    /** `bridge_util(u)`: visit `u`, search every unvisited neighbour from it, and add `u` to the
        points when it is a root with more than one search child, or a non-root with a child whose
        low link does not reach above `u`. Search parents already set keep their values, and new
        ones are set only for networks not visited before. */
    method BridgeUtil(u: Node)
      requires Valid() && u in universe && u !in visited && parent.Keys <= visited + {u}
      modifies this
      ensures Valid() && old(visited) + {u} <= visited && parent.Keys <= visited
      ensures Extends(old(parent), parent, old(visited))
      decreases universe - visited, 0
    {
      ghost var visited0, parent0 := visited, parent;
      var children := 0;
      ghost var firstChild := u;
      SearchedVisit(conn, universe, visited, disc, low, parent, points, time, u);
      visited, disc, low, time := visited + {u}, disc[u := time], low[u := time], time + 1;
      var neighbours := ListOf(Succ(conn, u));
      for k := 0 to |neighbours|
        invariant Valid() && visited0 + {u} <= visited && parent.Keys <= visited
        invariant Extends(parent0, parent, visited0)
        invariant u in parent <==> u in parent0
        invariant children >= 1 ==> firstChild in visited && firstChild in Succ(conn, u)
      {
        var v := neighbours[k];
        assert v in Succ(conn, u);
        if v !in visited {
          children := children + 1;
          if children == 1 {
            firstChild := v;
          }
          ghost var parent1, visited1 := parent, visited;
          SearchChild(u, v, children, firstChild);
          ExtendsTrans(parent0, parent1, parent, visited0, visited1);
        } else if !(u in parent && v == parent[u]) {
          var m := if low[u] <= disc[v] then low[u] else disc[v];
          SearchedLower(conn, universe, visited, disc, low, parent, points, time, u, m);
          low := low[u := m];
        }
      }
    }

    /** The body of the loop in `bridge_util(u)` for a neighbour `v` not visited yet, the
        `children`-th search child of `u`: search from `v`, take its low link into `u`'s, and
        decide whether `u` is a point. */
    method SearchChild(u: Node, v: Node, children: nat, ghost firstChild: Node)
      requires Valid() && u in visited && v !in visited && v in Succ(conn, u) && parent.Keys <= visited
      requires children >= 1 && firstChild in Succ(conn, u) && (children == 1 ==> firstChild == v)
      requires children > 1 ==> firstChild in visited
      modifies this
      ensures Valid() && old(visited) + {v} <= visited && parent.Keys <= visited
      ensures Extends(old(parent), parent, old(visited))
      decreases universe - visited, 1
    {
      ChildMakesTwo(conn, parent, u, v, children, firstChild);
      SearchedParent(conn, universe, visited, disc, low, parent, points, time, u, v);
      parent := parent[v := u];
      ghost var parent1, visited1 := parent, visited;
      assert Extends(old(parent), parent1, old(visited));
      BridgeUtil(v);
      ExtendsTrans(old(parent), parent1, parent, old(visited), visited1);
      AfterChild(u, v, children);
    }

    /** The rest of that body once the search from `v` is done: `low[u] = min(low[u], low[v])`,
        then `u` is a point if it is a root with more than one search child, or a non-root whose
        child's low link does not reach above it. */
    method AfterChild(u: Node, v: Node, children: nat)
      requires Valid() && u in visited && v in visited
      requires BothWays(conn) && (children > 1 || u in parent) ==> |Succ(conn, u)| >= 2
      modifies this
      ensures Valid() && visited == old(visited) && parent == old(parent)
    {
      var m := if low[u] <= low[v] then low[u] else low[v];
      SearchedLower(conn, universe, visited, disc, low, parent, points, time, u, m);
      low := low[u := m];
      if (u !in parent && children > 1) || (u in parent && low[v] >= disc[u]) {
        SearchedPoint(conn, universe, visited, disc, low, parent, points, time, u);
        points := points + {u};
      }
    }
  }

  /** `find_articulation_points`: the search from every network not visited yet, in the set's
      iteration order. Where connections go both ways, every point found has at least two
      neighbours. */
  method FindArticulationPoints(conn: map<Node, set<Node>>, networks: set<Node>) returns (points: set<Node>)
    ensures points <= RoutingLoops.Nodes(conn) + networks
    ensures BothWays(conn) ==> forall p | p in points :: |Succ(conn, p)| >= 2
  {
    var search := new ArticulationSearch(conn, networks);
    var roots := ListOf(networks);
    for i := 0 to |roots|
      invariant search.Valid() && search.parent.Keys <= search.visited
      invariant search.conn == conn && search.universe == RoutingLoops.Nodes(conn) + networks
    {
      if roots[i] !in search.visited {
        search.BridgeUtil(roots[i]);
      }
    }
    points := search.points;
  }

  /** What a redundancy finding states: its connected networks are its network's connections, and
      where connections go both ways there are at least two of them. */
  ghost predicate RedundancyFinding(conn: map<Node, set<Node>>, networks: set<Node>, x: Issue) {
    && x.MissingRedundancy? && x.issueType == "missing-redundancy" && x.severity == Warning
    && x.network in RoutingLoops.Nodes(conn) + networks
    && x.connectedNetworks == Succ(conn, x.network) && x.connectedCount == |x.connectedNetworks|
    && (BothWays(conn) ==> x.connectedCount >= 2)
  }

  /** `_check_missing_redundancy`: nothing for a topology of at most two networks; otherwise one
      finding per articulation point, in the set's iteration order, no network twice. */
  method CheckMissingRedundancy(rg: RoutingGraph) returns (issues: seq<Issue>)
    ensures |rg.allNetworks| <= 2 ==> issues == []
    ensures forall x | x in issues :: RedundancyFinding(rg.connections, rg.allNetworks, x)
    ensures forall a, b | 0 <= a < b < |issues| :: NetworkOf(issues[a]) != NetworkOf(issues[b])
  {
    issues := [];
    if |rg.allNetworks| > 2 {
      var points := FindArticulationPoints(rg.connections, rg.allNetworks);
      var critical := ListOf(points);
      for i := 0 to |critical|
        invariant |issues| == i
        invariant forall k | 0 <= k < i :: NetworkOf(issues[k]) == critical[k]
        invariant forall x | x in issues :: RedundancyFinding(rg.connections, rg.allNetworks, x)
      {
        var network := critical[i];
        var connected := Succ(rg.connections, network);
        assert network in points;
        issues := issues + [MissingRedundancy("missing-redundancy", Warning, network, |connected|, connected)];
      }
      forall a, b | 0 <= a < b < |issues| ensures NetworkOf(issues[a]) != NetworkOf(issues[b]) {
        assert NetworkOf(issues[a]) == critical[a] && NetworkOf(issues[b]) == critical[b];
      }
    }
  }
}
