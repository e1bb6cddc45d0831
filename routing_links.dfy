/** graph_checks/routing_inefficiencies.py, fourth part: `_check_router_isolation` (networks served
    by a single router that joins them to several others) and `_check_asymmetric_routing`
    (connections recorded in one direction only). */
module RoutingLinks {
  import opened Seqs
  import opened Bacnet
  import opened Reach
  import opened RoutingGraph

  // ---------------------------------------------------------------------------------------------
  // Router isolation

  /** A network of the router map with exactly one router and more than one connected network. */
  ghost predicate Isolated(rg: RoutingGraph, n: Node) {
    n in rg.networkRouters && |rg.networkRouters[n]| == 1 && |Succ(rg.connections, n)| > 1
  }

  /** What an isolation finding states: its router is the only one on its network, and its
      connected networks are that network's connections, more than one of them. */
  ghost predicate IsolationFinding(rg: RoutingGraph, x: Issue) {
    && x.SinglePointFailure? && x.issueType == "router-single-point-failure" && x.severity == Warning
    && x.network in rg.networkRouters && rg.networkRouters[x.network] == {x.router}
    && x.connectedNetworks == Succ(rg.connections, x.network)
    && x.connectedCount == |x.connectedNetworks| > 1
  }

  /** The network a finding is about, where it has one. */
  function NetworkOf(x: Issue): Node {
    if x.SinglePointFailure? || x.MissingRedundancy? then x.network else ""
  }

  /** The body of the loop for one network: a finding exactly when the network is isolated. */
  method IsolationAt(rg: RoutingGraph, network: Node) returns (found: seq<Issue>)
    requires network in rg.networkRouters
    ensures |found| <= 1 && (found == [] <==> !Isolated(rg, network))
    ensures forall x | x in found :: IsolationFinding(rg, x) && NetworkOf(x) == network
  {
    found := [];
    var routers := rg.networkRouters[network];
    if |routers| == 1 {
      var router :| router in routers;
      SingletonSet(routers, router);
      var connected := Succ(rg.connections, network);
      if |connected| > 1 {
        found := [SinglePointFailure("router-single-point-failure", Warning, router, network, |connected|, connected)];
      }
    }
  }

  /** The isolation findings for the networks in `done`: each states what `IsolationFinding` says
      about a network of `done`, every isolated network of `done` has one, and no network has two. */
  ghost predicate IsolationsFor(rg: RoutingGraph, issues: seq<Issue>, done: set<Node>) {
    && (forall x | x in issues :: IsolationFinding(rg, x) && NetworkOf(x) in done)
    && (forall n | n in done && Isolated(rg, n) :: exists x | x in issues :: NetworkOf(x) == n)
    && (forall a, b | 0 <= a < b < |issues| :: NetworkOf(issues[a]) != NetworkOf(issues[b]))
  }

  /** Adding the findings for one more network. */
  lemma IsolationsSnoc(rg: RoutingGraph, issues: seq<Issue>, done: set<Node>, network: Node, found: seq<Issue>)
    requires IsolationsFor(rg, issues, done) && network !in done
    requires |found| <= 1 && (found == [] <==> !Isolated(rg, network))
    requires forall x | x in found :: IsolationFinding(rg, x) && NetworkOf(x) == network
    ensures IsolationsFor(rg, issues + found, done + {network})
  {
    if found != [] {
      assert found == [found[0]] && found[0] in found;
      assert forall x | x in issues :: x in issues + found;
      assert (issues + found)[|issues|] == found[0];
    }
  }

  /** `_check_router_isolation`: over the networks of the router map, in its iteration order, one
      finding per isolated network, and no other. */
  method CheckRouterIsolation(rg: RoutingGraph) returns (issues: seq<Issue>)
    ensures forall x | x in issues :: IsolationFinding(rg, x)
    ensures forall n | Isolated(rg, n) :: exists x | x in issues :: NetworkOf(x) == n
    ensures forall a, b | 0 <= a < b < |issues| :: NetworkOf(issues[a]) != NetworkOf(issues[b])
  {
    var keys := ListOf(rg.networkRouters.Keys);
    issues := [];
    for i := 0 to |keys|
      invariant IsolationsFor(rg, issues, Elems(keys[..i]))
    {
      assert keys[..i + 1] == keys[..i] + [keys[i]];
      ElemsAppend(keys[..i], [keys[i]]);
      assert keys[i] !in Elems(keys[..i]) by {
        assert Distinct(keys[..i] + [keys[i]]);
      }
      var found := IsolationAt(rg, keys[i]);
      IsolationsSnoc(rg, issues, Elems(keys[..i]), keys[i], found);
      issues := issues + found;
    }
    assert keys[..|keys|] == keys;
  }

  /** In a routing graph built from a graph, an isolation finding names a router of the graph that
      is the only one on its network, and the networks that router joins to it. */
  lemma IsolationInGraph(g: Graph, routers: set<Node>, networks: set<Node>, rg: RoutingGraph, x: Issue)
    requires Built(g, routers, networks, rg) && IsolationFinding(rg, x)
    ensures x.router in routers && x.network in OnNetworks(g, networks, x.router)
    ensures forall r | r in routers && x.network in OnNetworks(g, networks, r) :: r == x.router
    ensures forall b :: b in x.connectedNetworks <==> Connected(g, routers, networks, x.network, b)
  {
    assert Succ(rg.networkRouters, x.network) == {x.router};
    assert x.router in Succ(rg.networkRouters, x.network);
    forall r | r in routers && x.network in OnNetworks(g, networks, r) ensures r == x.router {
      assert r in Succ(rg.networkRouters, x.network);
    }
  }

  // ---------------------------------------------------------------------------------------------
  // Asymmetric routing

  /** `b` is connected from `a` but not `a` from `b`. */
  ghost predicate OneWay(conn: map<Node, set<Node>>, a: Node, b: Node) {
    b in Succ(conn, a) && a !in Succ(conn, b)
  }

  /** The two networks of a finding, where it has them. */
  function PairOf(x: Issue): (Node, Node) {
    if x.AsymmetricRouting? || x.SuboptimalPath? then (x.sourceNetwork, x.targetNetwork) else ("", "")
  }

  /** What an asymmetric-routing finding states: its target is connected from its source, but not
      the other way round. */
  ghost predicate AsymmetryFinding(conn: map<Node, set<Node>>, x: Issue) {
    x.AsymmetricRouting? && x.issueType == "asymmetric-routing" && x.severity == Warning
    && OneWay(conn, x.sourceNetwork, x.targetNetwork)
  }

  /** The inner loop over the connections of `a`. */
  method OneWayFrom(conn: map<Node, set<Node>>, a: Node) returns (pairs: seq<(Node, Node)>)
    requires a in conn
    ensures forall p | p in pairs :: p.0 == a && OneWay(conn, a, p.1)
    ensures forall b | OneWay(conn, a, b) :: (a, b) in pairs
    ensures Distinct(pairs)
  {
    var targets := ListOf(conn[a]);
    pairs := [];
    for j := 0 to |targets|
      invariant forall p | p in pairs :: p.0 == a && OneWay(conn, a, p.1) && p.1 in Elems(targets[..j])
      invariant forall k | 0 <= k < j && OneWay(conn, a, targets[k]) :: (a, targets[k]) in pairs
      invariant Distinct(pairs)
    {
      assert targets[..j + 1] == targets[..j] + [targets[j]];
      ElemsAppend(targets[..j], [targets[j]]);
      var b := targets[j];
      if a !in Succ(conn, b) {
        assert b !in Elems(targets[..j]) by {
          assert Distinct(targets[..j] + [targets[j]]);
        }
        DistinctSnoc(pairs, (a, b));
        pairs := pairs + [(a, b)];
      }
    }
    forall b | OneWay(conn, a, b) ensures (a, b) in pairs {
      var k :| 0 <= k < |targets| && targets[k] == b;
    }
  }

  /** The pairs of networks connected in one direction only, in the map's iteration order. */
  method OneWayPairs(conn: map<Node, set<Node>>) returns (pairs: seq<(Node, Node)>)
    ensures forall p | p in pairs :: OneWay(conn, p.0, p.1)
    ensures forall a, b | OneWay(conn, a, b) :: (a, b) in pairs
    ensures Distinct(pairs)
  {
    var sources := ListOf(conn.Keys);
    pairs := [];
    for i := 0 to |sources|
      invariant forall p | p in pairs :: OneWay(conn, p.0, p.1) && p.0 in Elems(sources[..i])
      invariant forall a, b | a in Elems(sources[..i]) && OneWay(conn, a, b) :: (a, b) in pairs
      invariant Distinct(pairs)
    {
      assert sources[..i + 1] == sources[..i] + [sources[i]];
      ElemsAppend(sources[..i], [sources[i]]);
      var a := sources[i];
      var more := OneWayFrom(conn, a);
      assert a !in Elems(sources[..i]) by {
        assert Distinct(sources[..i] + [sources[i]]);
      }
      forall p, q | p in pairs && q in more ensures p != q {
      }
      DistinctAppend(pairs, more);
      ElemsAppend(pairs, more);
      pairs := pairs + more;
    }
    assert sources[..|sources|] == sources;
  }

  /** `_check_asymmetric_routing`: one finding per pair of networks connected in one direction
      only, and no pair twice. */
  method CheckAsymmetricRouting(rg: RoutingGraph) returns (issues: seq<Issue>)
    ensures forall x | x in issues :: AsymmetryFinding(rg.connections, x)
    ensures forall a, b | OneWay(rg.connections, a, b) :: exists x | x in issues :: PairOf(x) == (a, b)
    ensures forall i, j | 0 <= i < j < |issues| :: PairOf(issues[i]) != PairOf(issues[j])
  {
    var pairs := OneWayPairs(rg.connections);
    issues := [];
    for i := 0 to |pairs|
      invariant |issues| == i
      invariant forall k | 0 <= k < i :: issues[k] == AsymmetricRouting("asymmetric-routing", Warning, pairs[k].0, pairs[k].1)
    {
      issues := issues + [AsymmetricRouting("asymmetric-routing", Warning, pairs[i].0, pairs[i].1)];
    }
    forall x | x in issues ensures AsymmetryFinding(rg.connections, x) {
      var k :| 0 <= k < |issues| && issues[k] == x;
      assert pairs[k] in pairs;
    }
    forall a, b | OneWay(rg.connections, a, b) ensures exists x | x in issues :: PairOf(x) == (a, b) {
      var k :| 0 <= k < |pairs| && pairs[k] == (a, b);
      assert PairOf(issues[k]) == (a, b);
    }
    forall i, j | 0 <= i < j < |issues| ensures PairOf(issues[i]) != PairOf(issues[j]) {
      assert PairOf(issues[i]) == pairs[i] && PairOf(issues[j]) == pairs[j];
    }
  }

  /** A routing graph built from a graph connects networks both ways, so the asymmetric-routing
      pass never reports anything on it. */
  lemma NoAsymmetryWhenBuilt(g: Graph, routers: set<Node>, networks: set<Node>, rg: RoutingGraph, x: Issue)
    requires Built(g, routers, networks, rg)
    ensures !AsymmetryFinding(rg.connections, x)
  {
    BuiltConnections(g, routers, networks, rg);
  }
}
