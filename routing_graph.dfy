/** graph_checks/routing_inefficiencies.py, first part: the routing topology `_build_routing_graph`
    derives from the RDF graph, and the findings the five routing passes report. A
    `defaultdict(set)` is a map read through `Reach.Succ`, so a key that is absent and a key that
    holds the empty set read alike. */
module RoutingGraph {
  import opened Seqs
  import opened Bacnet
  import opened Reach

  /** The dictionary `_build_routing_graph` returns. */
  datatype RoutingGraph = RoutingGraph(
    routers: map<Node, set<Node>>,        // router -> the networks it is on
    routerServes: map<Node, set<Node>>,   // router -> the networks it serves
    networkRouters: map<Node, set<Node>>, // network -> the routers on it
    connections: map<Node, set<Node>>,    // network -> the networks a router joins it to
    allRouters: set<Node>,
    allNetworks: set<Node>)

  /** A finding of one of the routing passes. */
  datatype Issue =
    | RoutingLoop(issueType: string, severity: Severity, loopLength: nat, loopNetworks: set<Node>,
                  loopRouters: set<Node>, loopPath: seq<Node>)
    | SuboptimalPath(issueType: string, severity: Severity, sourceNetwork: Node, targetNetwork: Node,
                     pathLength: nat, routingPath: seq<Node>, efficiencyLoss: int)
    | SinglePointFailure(issueType: string, severity: Severity, router: Node, network: Node,
                         connectedCount: nat, connectedNetworks: set<Node>)
    | AsymmetricRouting(issueType: string, severity: Severity, sourceNetwork: Node, targetNetwork: Node)
    | MissingRedundancy(issueType: string, severity: Severity, network: Node, connectedCount: nat,
                        connectedNetworks: set<Node>)

  // ---------------------------------------------------------------------------------------------
  // Specification

  /** The networks of `networks` that router `r` is on. */
  function OnNetworks(g: Graph, networks: set<Node>, r: Node): set<Node> {
    Elems(Objects(g, r, DeviceOnNetwork)) * networks
  }

  /** The networks of `networks` that router `r` serves. */
  function ServedNetworks(g: Graph, networks: set<Node>, r: Node): set<Node> {
    Elems(Objects(g, r, ServesNetwork)) * networks
  }

  /** A router on the networks `on` that serves the networks `served` joins `a` and `b`: two
      different networks, one it is on and one it serves, either way round. */
  predicate Joins(on: set<Node>, served: set<Node>, a: Node, b: Node) {
    a != b && ((a in on && b in served) || (b in on && a in served))
  }

  /** Some router of `routers` joins networks `a` and `b`. */
  ghost predicate Connected(g: Graph, routers: set<Node>, networks: set<Node>, a: Node, b: Node) {
    exists r | r in routers :: Joins(OnNetworks(g, networks, r), ServedNetworks(g, networks, r), a, b)
  }

  /** `rg` is the routing graph of `g` over the given routers and networks. */
  ghost predicate Built(g: Graph, routers: set<Node>, networks: set<Node>, rg: RoutingGraph) {
    && rg.allRouters == routers && rg.allNetworks == networks
    && (forall r :: Succ(rg.routers, r) == (if r in routers then OnNetworks(g, networks, r) else {}))
    && (forall r :: Succ(rg.routerServes, r) == (if r in routers then ServedNetworks(g, networks, r) else {}))
    && (forall n, r :: r in Succ(rg.networkRouters, n) <==> r in routers && n in OnNetworks(g, networks, r))
    && (forall a, b :: b in Succ(rg.connections, a) <==> Connected(g, routers, networks, a, b))
  }

  /** Every connection goes both ways. */
  ghost predicate BothWays(conn: map<Node, set<Node>>) {
    forall a, b | b in Succ(conn, a) :: a in Succ(conn, b)
  }

  /** No network is connected to itself. */
  ghost predicate NoSelfLinks(conn: map<Node, set<Node>>) {
    forall a :: a !in Succ(conn, a)
  }

  /** The connections of a built routing graph go both ways, never join a network to itself, and
      join only networks of the graph. */
  lemma BuiltConnections(g: Graph, routers: set<Node>, networks: set<Node>, rg: RoutingGraph)
    requires Built(g, routers, networks, rg)
    ensures BothWays(rg.connections) && NoSelfLinks(rg.connections)
    ensures forall a | a in rg.connections :: Succ(rg.connections, a) <= networks
  {
    forall a, b | b in Succ(rg.connections, a) ensures a in Succ(rg.connections, b) {
      var r :| r in routers && Joins(OnNetworks(g, networks, r), ServedNetworks(g, networks, r), a, b);
      assert Joins(OnNetworks(g, networks, r), ServedNetworks(g, networks, r), b, a);
    }
  }

  // ---------------------------------------------------------------------------------------------
  // The builder

  /** One `(router, device-on-network, network)` triple with `network` among the networks. */
  method RecordOn(routerNetworks: map<Node, set<Node>>, networkRouters: map<Node, set<Node>>, router: Node, network: Node)
    returns (routerNetworks': map<Node, set<Node>>, networkRouters': map<Node, set<Node>>)
    ensures forall r :: Succ(routerNetworks', r) == (if r == router then Succ(routerNetworks, r) + {network} else Succ(routerNetworks, r))
    ensures forall n, r :: r in Succ(networkRouters', n) <==> r in Succ(networkRouters, n) || (r == router && n == network)
  {
    routerNetworks' := routerNetworks[router := Succ(routerNetworks, router) + {network}];
    networkRouters' := networkRouters[network := Succ(networkRouters, network) + {router}];
  }

  /** `router_networks[router].add(network)` / `network_routers[network].add(router)` for every
      `(router, device-on-network, network)` with `network` among the networks. */
  method AddOnNetworks(g: Graph, networks: set<Node>, router: Node,
                       routerNetworks: map<Node, set<Node>>, networkRouters: map<Node, set<Node>>)
    returns (routerNetworks': map<Node, set<Node>>, networkRouters': map<Node, set<Node>>)
    ensures forall r :: Succ(routerNetworks', r) == (if r == router then Succ(routerNetworks, r) + OnNetworks(g, networks, router) else Succ(routerNetworks, r))
    ensures forall n, r :: r in Succ(networkRouters', n) <==>
      r in Succ(networkRouters, n) || (r == router && n in OnNetworks(g, networks, router))
  {
    var targets := Objects(g, router, DeviceOnNetwork);
    routerNetworks', networkRouters' := routerNetworks, networkRouters;
    for j := 0 to |targets|
      invariant forall r :: Succ(routerNetworks', r) == (if r == router then Succ(routerNetworks, r) + Elems(targets[..j]) * networks else Succ(routerNetworks, r))
      invariant forall n, r :: r in Succ(networkRouters', n) <==>
        r in Succ(networkRouters, n) || (r == router && n in Elems(targets[..j]) * networks)
    {
      assert targets[..j + 1] == targets[..j] + [targets[j]];
      ElemsAppend(targets[..j], [targets[j]]);
      if targets[j] in networks {
        routerNetworks', networkRouters' := RecordOn(routerNetworks', networkRouters', router, targets[j]);
      }
    }
    assert targets[..|targets|] == targets;
  }

  /** `router_serves[router].add(network)` for every `(router, serves-network, network)` with
      `network` among the networks. */
  method AddServedNetworks(g: Graph, networks: set<Node>, router: Node, routerServes: map<Node, set<Node>>)
    returns (routerServes': map<Node, set<Node>>)
    ensures forall r :: Succ(routerServes', r) == (if r == router then Succ(routerServes, r) + ServedNetworks(g, networks, router) else Succ(routerServes, r))
  {
    var targets := Objects(g, router, ServesNetwork);
    routerServes' := routerServes;
    for j := 0 to |targets|
      invariant forall r :: Succ(routerServes', r) == (if r == router then Succ(routerServes, r) + Elems(targets[..j]) * networks else Succ(routerServes, r))
    {
      assert targets[..j + 1] == targets[..j] + [targets[j]];
      ElemsAppend(targets[..j], [targets[j]]);
      if targets[j] in networks {
        routerServes' := routerServes'[router := Succ(routerServes', router) + {targets[j]}];
      }
    }
    assert targets[..|targets|] == targets;
  }

  /** The innermost loop: join `on` to every served network other than itself, both ways. */
  method JoinOne(conn: map<Node, set<Node>>, on: Node, served: set<Node>) returns (conn': map<Node, set<Node>>)
    ensures forall a, b :: b in Succ(conn', a) <==> b in Succ(conn, a) || Joins({on}, served, a, b)
  {
    var order := ListOf(served);
    conn' := conn;
    for k := 0 to |order|
      invariant forall a, b :: b in Succ(conn', a) <==> b in Succ(conn, a) || Joins({on}, Elems(order[..k]), a, b)
    {
      assert order[..k + 1] == order[..k] + [order[k]];
      ElemsAppend(order[..k], [order[k]]);
      var servedNetwork := order[k];
      ghost var before := conn';
      if on != servedNetwork {
        conn' := conn'[on := Succ(conn', on) + {servedNetwork}];
        conn' := conn'[servedNetwork := Succ(conn', servedNetwork) + {on}];
      }
      JoinStep(conn, before, conn', on, Elems(order[..k]), servedNetwork);
    }
    assert order[..|order|] == order;
  }

  /** Joining `on` and one more served network `x` both ways, unless they are the same network. */
  lemma JoinStep(conn: map<Node, set<Node>>, before: map<Node, set<Node>>, after: map<Node, set<Node>>,
                 on: Node, done: set<Node>, x: Node)
    requires forall a, b :: b in Succ(before, a) <==> b in Succ(conn, a) || Joins({on}, done, a, b)
    requires on == x ==> after == before
    requires on != x ==> after == before[on := Succ(before, on) + {x}][x := Succ(before[on := Succ(before, on) + {x}], x) + {on}]
    ensures forall a, b :: b in Succ(after, a) <==> b in Succ(conn, a) || Joins({on}, done + {x}, a, b)
  {
    forall a, b ensures b in Succ(after, a) <==> b in Succ(conn, a) || Joins({on}, done + {x}, a, b) {
      assert b in Succ(before, a) <==> b in Succ(conn, a) || Joins({on}, done, a, b);
    }
  }

  /** The two inner loops for one router: join every network it is on to every network it serves. */
  method JoinRouter(conn: map<Node, set<Node>>, on: set<Node>, served: set<Node>) returns (conn': map<Node, set<Node>>)
    ensures forall a, b :: b in Succ(conn', a) <==> b in Succ(conn, a) || Joins(on, served, a, b)
  {
    var order := ListOf(on);
    conn' := conn;
    for j := 0 to |order|
      invariant forall a, b :: b in Succ(conn', a) <==> b in Succ(conn, a) || Joins(Elems(order[..j]), served, a, b)
    {
      assert order[..j + 1] == order[..j] + [order[j]];
      ElemsAppend(order[..j], [order[j]]);
      conn' := JoinOne(conn', order[j], served);
    }
    assert order[..|order|] == order;
  }

  /** Some router of `rs` joins `a` and `b`, by the recorded maps. */
  ghost predicate JoinedBy(routerNetworks: map<Node, set<Node>>, routerServes: map<Node, set<Node>>,
                           rs: set<Node>, a: Node, b: Node) {
    exists r | r in rs :: Joins(Succ(routerNetworks, r), Succ(routerServes, r), a, b)
  }

  /** The connection loop over the routers of `router_networks`, in its iteration order. */
  method Connect(routerNetworks: map<Node, set<Node>>, routerServes: map<Node, set<Node>>)
    returns (conn: map<Node, set<Node>>)
    ensures forall a, b :: b in Succ(conn, a) <==> JoinedBy(routerNetworks, routerServes, routerNetworks.Keys, a, b)
  {
    var order := ListOf(routerNetworks.Keys);
    conn := map[];
    for i := 0 to |order|
      invariant forall a, b :: b in Succ(conn, a) <==> JoinedBy(routerNetworks, routerServes, Elems(order[..i]), a, b)
    {
      assert order[..i + 1] == order[..i] + [order[i]];
      ElemsAppend(order[..i], [order[i]]);
      var router := order[i];
      conn := JoinRouter(conn, routerNetworks[router], Succ(routerServes, router));
    }
    assert order[..|order|] == order;
  }

  /** The first loop's three dictionaries after the routers of `done`: the networks each is on, the
      networks each serves, and the routers on each network. */
  ghost predicate Recorded(g: Graph, networks: set<Node>, done: set<Node>, routerNetworks: map<Node, set<Node>>,
                           routerServes: map<Node, set<Node>>, networkRouters: map<Node, set<Node>>) {
    && (forall r :: Succ(routerNetworks, r) == (if r in done then OnNetworks(g, networks, r) else {}))
    && (forall r :: Succ(routerServes, r) == (if r in done then ServedNetworks(g, networks, r) else {}))
    && (forall n, r :: r in Succ(networkRouters, n) <==> r in done && n in OnNetworks(g, networks, r))
  }

  /** The first loop's body for one more router: the networks it is on and serves. */
  method AddRouter(g: Graph, networks: set<Node>, ghost done: set<Node>, router: Node,
                   routerNetworks: map<Node, set<Node>>, routerServes: map<Node, set<Node>>,
                   networkRouters: map<Node, set<Node>>)
    returns (routerNetworks': map<Node, set<Node>>, routerServes': map<Node, set<Node>>,
             networkRouters': map<Node, set<Node>>)
    requires router !in done
    requires Recorded(g, networks, done, routerNetworks, routerServes, networkRouters)
    ensures Recorded(g, networks, done + {router}, routerNetworks', routerServes', networkRouters')
  {
    routerNetworks', networkRouters' := AddOnNetworks(g, networks, router, routerNetworks, networkRouters);
    routerServes' := AddServedNetworks(g, networks, router, routerServes);
  }

  /** `_build_routing_graph`: the routing graph of `g` over `routers` and `networks`. */
  method BuildRoutingGraph(g: Graph, routers: set<Node>, networks: set<Node>) returns (rg: RoutingGraph)
    ensures Built(g, routers, networks, rg)
  {
    var order := ListOf(routers);
    var routerNetworks, routerServes, networkRouters := map[], map[], map[];
    for i := 0 to |order|
      invariant Recorded(g, networks, Elems(order[..i]), routerNetworks, routerServes, networkRouters)
    {
      assert order[..i + 1] == order[..i] + [order[i]];
      ElemsAppend(order[..i], [order[i]]);
      routerNetworks, routerServes, networkRouters :=
        AddRouter(g, networks, Elems(order[..i]), order[i], routerNetworks, routerServes, networkRouters);
    }
    assert order[..|order|] == order;
    var conn := Connect(routerNetworks, routerServes);
    rg := RoutingGraph(routerNetworks, routerServes, networkRouters, conn, routers, networks);
    ConnectedJoined(g, routers, networks, routerNetworks, routerServes);
  }

  /** Joined by the recorded routers is connected by the routers of the graph. */
  lemma ConnectedJoined(g: Graph, routers: set<Node>, networks: set<Node>,
                        routerNetworks: map<Node, set<Node>>, routerServes: map<Node, set<Node>>)
    requires forall r :: Succ(routerNetworks, r) == (if r in routers then OnNetworks(g, networks, r) else {})
    requires forall r :: Succ(routerServes, r) == (if r in routers then ServedNetworks(g, networks, r) else {})
    ensures forall a, b :: JoinedBy(routerNetworks, routerServes, routerNetworks.Keys, a, b) <==>
      Connected(g, routers, networks, a, b)
  {
    forall a, b ensures JoinedBy(routerNetworks, routerServes, routerNetworks.Keys, a, b) <==>
      Connected(g, routers, networks, a, b)
    {
      if Connected(g, routers, networks, a, b) {
        var r :| r in routers && Joins(OnNetworks(g, networks, r), ServedNetworks(g, networks, r), a, b);
        assert Succ(routerNetworks, r) == OnNetworks(g, networks, r);
      }
      if JoinedBy(routerNetworks, routerServes, routerNetworks.Keys, a, b) {
        var r :| r in routerNetworks.Keys && Joins(Succ(routerNetworks, r), Succ(routerServes, r), a, b);
        assert r in routers;
      }
    }
  }
}
