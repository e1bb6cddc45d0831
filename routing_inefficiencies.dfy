/** graph_checks/routing_inefficiencies.py, top level: `check_routing_inefficiencies` builds the
    routing graph from the graph's routers and networks, runs the five passes in order and
    collects the nodes the findings name. */
module RoutingInefficiencies {
  import opened Seqs
  import opened Text
  import opened Bacnet
  import opened Reach
  import opened RoutingGraph
  import opened RoutingLoops
  import opened RoutingPaths
  import opened RoutingLinks
  import opened RoutingRedundancy

  /** The routers and the networks of the graph, by their `rdf:type`. */
  ghost function RouterSet(g: Graph): set<Node> {
    Elems(OfType(g, RouterClass))
  }

  ghost function NetworkSet(g: Graph): set<Node> {
    Elems(OfType(g, NetworkClass))
  }

  /** The pass a finding comes from, in the order the passes run. */
  function Pass(x: Issue): nat {
    match x
    case RoutingLoop(_, _, _, _, _, _) => 0
    case SuboptimalPath(_, _, _, _, _, _, _) => 1
    case SinglePointFailure(_, _, _, _, _, _) => 2
    case AsymmetricRouting(_, _, _, _) => 3
    case MissingRedundancy(_, _, _, _, _) => 4
  }

  /** What each kind of finding states about the routing graph. */
  ghost predicate Finding(rg: RoutingGraph, x: Issue) {
    match x
    case RoutingLoop(_, _, _, _, _, _) => LoopFinding(rg, x)
    case SuboptimalPath(_, _, _, _, _, _, _) => PathFinding(rg.connections, x) && x.sourceNetwork in rg.allNetworks
    case SinglePointFailure(_, _, _, _, _, _) => IsolationFinding(rg, x)
    case AsymmetricRouting(_, _, _, _) => AsymmetryFinding(rg.connections, x)
    case MissingRedundancy(_, _, _, _, _) => RedundancyFinding(rg.connections, rg.allNetworks, x)
  }

  /** The nodes a finding adds to the affected set: its `router`, its `network`, and the
      `routers`, `networks` and `loop_routers` of its details. A loop's networks are not among
      them. */
  function IssueNodes(x: Issue): set<Node> {
    match x
    case RoutingLoop(_, _, _, _, routers, _) => routers
    case SuboptimalPath(_, _, _, _, _, path, _) => Elems(path)
    case SinglePointFailure(_, _, router, network, _, _) => {router, network}
    case AsymmetricRouting(_, _, a, b) => {a, b}
    case MissingRedundancy(_, _, network, _, _) => {network}
  }

  /** The loop over the findings that collects the affected nodes, key by key. */
  method AffectedNodes(issues: seq<Issue>) returns (affected: set<Node>)
    ensures forall n :: n in affected <==> exists x | x in issues :: n in IssueNodes(x)
  {
    affected := {};
    for i := 0 to |issues|
      invariant forall n :: n in affected <==> exists k :: 0 <= k < i && n in IssueNodes(issues[k])
    {
      var issue := issues[i];
      if issue.SinglePointFailure? {
        // 'router', and 'routers' in the details
        affected := affected + {issue.router};
      }
      if issue.SinglePointFailure? || issue.MissingRedundancy? {
        // 'network'
        affected := affected + {issue.network};
      }
      if issue.SuboptimalPath? {
        // 'networks' in the details: the routing path
        affected := affected + Elems(issue.routingPath);
      }
      if issue.AsymmetricRouting? {
        affected := affected + {issue.sourceNetwork, issue.targetNetwork};
      }
      if issue.RoutingLoop? {
        // 'loop_routers' in the details
        affected := affected + issue.loopRouters;
      }
    }
    forall n | exists x | x in issues :: n in IssueNodes(x) ensures n in affected {
      var x :| x in issues && n in IssueNodes(x);
      var k :| 0 <= k < |issues| && issues[k] == x;
    }
  }

  /** Findings in the order of their passes. */
  ghost predicate InPassOrder(s: seq<Issue>) {
    forall i, j | 0 <= i < j < |s| :: Pass(s[i]) <= Pass(s[j])
  }

  /** Appending the findings of a later pass keeps the order. */
  lemma InPassOrderAppend(a: seq<Issue>, b: seq<Issue>, p: nat)
    requires InPassOrder(a) && (forall x | x in a :: Pass(x) <= p) && (forall x | x in b :: Pass(x) == p)
    ensures InPassOrder(a + b) && (forall x | x in a + b :: Pass(x) <= p)
  {
    var s := a + b;
    forall i, j | 0 <= i < j < |s| ensures Pass(s[i]) <= Pass(s[j]) {
      if j < |a| {
        assert s[i] == a[i] && s[j] == a[j];
      } else if i < |a| {
        assert s[i] in a && s[j] in b;
      } else {
        assert s[i] in b && s[j] in b;
      }
    }
  }

  /** The findings of the five passes, concatenated: each states what its kind says, and they
      come in pass order. */
  lemma Concatenated(rg: RoutingGraph, l: seq<Issue>, p: seq<Issue>, i: seq<Issue>, a: seq<Issue>, r: seq<Issue>)
    requires forall x | x in l :: LoopFinding(rg, x)
    requires forall x | x in p :: PathFinding(rg.connections, x) && x.sourceNetwork in rg.allNetworks
    requires forall x | x in i :: IsolationFinding(rg, x)
    requires forall x | x in a :: AsymmetryFinding(rg.connections, x)
    requires forall x | x in r :: RedundancyFinding(rg.connections, rg.allNetworks, x)
    ensures forall x | x in l + p + i + a + r :: Finding(rg, x)
    ensures InPassOrder(l + p + i + a + r)
  {
    InPassOrderAppend([], l, 0);
    assert [] + l == l;
    InPassOrderAppend(l, p, 1);
    InPassOrderAppend(l + p, i, 2);
    InPassOrderAppend(l + p + i, a, 3);
    InPassOrderAppend(l + p + i + a, r, 4);
  }

  /** The five passes, in order, on a routing graph: every finding states what its kind says of
      the graph, and the findings come in pass order. On a graph whose connections go both ways
      and never from a network to itself, no asymmetric-routing finding is reported, every
      network with a connection is reported on a critical loop of two networks, and a loop of
      three or more networks through a network gives a loop finding of three or more; every network
      reachable from a network only in more than four hops is reported for that pair; every
      isolated network is reported; redundancy findings need more than two networks. */
  method RunPasses(rg: RoutingGraph) returns (issues: seq<Issue>)
    ensures forall x | x in issues :: Finding(rg, x)
    ensures InPassOrder(issues)
    ensures BothWays(rg.connections) ==> forall x | x in issues :: !x.AsymmetricRouting?
    ensures BothWays(rg.connections) && NoSelfLinks(rg.connections) ==>
      forall n | n in rg.allNetworks && Succ(rg.connections, n) != {} ::
        exists x | x in issues :: x.RoutingLoop? && x.loopLength == 2 && n in x.loopNetworks && x.severity == Critical
    ensures forall s, t | s in rg.allNetworks && Linked(rg.connections, s, t) && Far(rg.connections, s, t) ::
      exists x | x in issues :: x.SuboptimalPath? && PairOf(x) == (s, t)
    ensures forall n | Isolated(rg, n) :: exists x | x in issues :: x.SinglePointFailure? && NetworkOf(x) == n
    ensures |rg.allNetworks| <= 2 ==> forall x | x in issues :: !x.MissingRedundancy?
    ensures BothWays(rg.connections) && NoSelfLinks(rg.connections) ==>
      forall c | IsLoop(rg.connections, c) && |c| > 3 && c[0] in rg.allNetworks ::
        exists x | x in issues :: x.RoutingLoop? && x.loopLength >= 3
  {
    var loops := CheckRoutingLoops(rg);
    var paths := CheckSuboptimalPaths(rg);
    var isolation := CheckRouterIsolation(rg);
    var asymmetric := CheckAsymmetricRouting(rg);
    var redundancy := CheckMissingRedundancy(rg);
    Concatenated(rg, loops, paths, isolation, asymmetric, redundancy);
    ConcatenatedMembers(loops, paths, isolation, asymmetric, redundancy);
    issues := loops + paths + isolation + asymmetric + redundancy;
  }

  /** The findings of the five passes, concatenated, are those of the passes. */
  lemma ConcatenatedMembers(l: seq<Issue>, p: seq<Issue>, i: seq<Issue>, a: seq<Issue>, r: seq<Issue>)
    ensures forall x | x in l + p + i + a + r :: x in l || x in p || x in i || x in a || x in r
    ensures forall x | x in l :: x in l + p + i + a + r
    ensures forall x | x in p :: x in l + p + i + a + r
    ensures forall x | x in i :: x in l + p + i + a + r
  {
  }

  /** `check_routing_inefficiencies`: the routing graph is the one built from the graph's routers
      and networks, and the findings are those of the five passes on it. Since the built
      connections go both ways and never from a network to itself, no asymmetric-routing finding
      is ever reported, every network with a connection is reported on a critical loop of two
      networks, and a loop of three or more networks gives a loop finding of three or more
      networks, all of them networks of the graph. The affected triples are always empty, and the affected nodes are those the
      findings name. */
  method CheckRoutingInefficiencies(g: Graph)
    returns (issues: seq<Issue>, affectedTriples: seq<Triple>, affected: set<Node>, ghost rg: RoutingGraph)
    ensures Built(g, RouterSet(g), NetworkSet(g), rg)
    ensures forall x | x in issues :: Finding(rg, x) && !x.AsymmetricRouting?
    ensures InPassOrder(issues)
    ensures forall n | n in NetworkSet(g) && Succ(rg.connections, n) != {} ::
      exists x | x in issues :: x.RoutingLoop? && x.loopLength == 2 && n in x.loopNetworks && x.severity == Critical
    ensures forall s, t | s in NetworkSet(g) && Linked(rg.connections, s, t) && Far(rg.connections, s, t) ::
      exists x | x in issues :: x.SuboptimalPath? && PairOf(x) == (s, t)
    ensures forall n | Isolated(rg, n) :: exists x | x in issues :: x.SinglePointFailure? && NetworkOf(x) == n
    ensures |NetworkSet(g)| <= 2 ==> forall x | x in issues :: !x.MissingRedundancy?
    ensures forall c | IsLoop(rg.connections, c) && |c| > 3 ::
      exists x | x in issues :: x.RoutingLoop? && x.loopLength >= 3
    ensures forall x | x in issues && x.RoutingLoop? :: x.loopNetworks <= NetworkSet(g)
    ensures affectedTriples == []
    ensures forall n :: n in affected <==> exists x | x in issues :: n in IssueNodes(x)
  {
    var routers := TypedSet(g, RouterClass);
    var networks := TypedSet(g, NetworkClass);
    var built := BuildRoutingGraph(g, routers, networks);
    rg := built;
    BuiltConnections(g, routers, networks, built);
    issues := RunPasses(built);
    LoopsInside(g, built, issues);
    affectedTriples := [];
    affected := AffectedNodes(issues);
  }

  /** The loop findings, and the loops of the built connections, lie among the graph's networks. */
  lemma LoopsInside(g: Graph, rg: RoutingGraph, issues: seq<Issue>)
    requires rg.allNetworks == NetworkSet(g) && forall a | a in rg.connections :: Succ(rg.connections, a) <= NetworkSet(g)
    requires forall x | x in issues :: Finding(rg, x)
    ensures forall x | x in issues && x.RoutingLoop? :: x.loopNetworks <= NetworkSet(g)
    ensures forall c | IsLoop(rg.connections, c) :: c[0] in rg.allNetworks
  {
    forall x | x in issues && x.RoutingLoop? ensures x.loopNetworks <= NetworkSet(g) {
      LoopFindingInside(rg, x, NetworkSet(g));
    }
    forall c | IsLoop(rg.connections, c) ensures c[0] in rg.allNetworks {
      var n := |c| - 1;
      assert c[n] in Succ(rg.connections, c[n - 1]);
    }
  }

  /** `_get_network_name_from_uri` and `_get_router_name_from_uri`: the last '/'-separated piece of
      the URI, which is the whole URI when it has no '/'. */
  function NameFromUri(uri: string): (r: string)
    ensures '/' !in r && EndsWith(uri, r)
    ensures '/' !in uri ==> r == uri
    ensures var pieces := Split(uri, '/'); r == pieces[|pieces| - 1]
  {
    AfterLastSplit(uri, '/');
    if '/' in uri then AfterLast(uri, '/') else uri
  }
}
