/** graph_checks/unreachable_networks.py: networks joined by routers form islands; with more than
    one island every network is reported, as isolated (an island of its own) or partial. */
module UnreachableNetworks {
  import opened Wrappers
  import opened Seqs
  import opened Text
  import opened Bacnet
  import opened Reach

  const NetworkNumber: Node := Ns + "network-number"

  datatype Issue = Issue(
    issueType: string,
    severity: Severity,
    network: Node,
    networkName: string,
    isolationType: string,
    totalNetworks: nat,
    reachableNetworks: nat,
    networkIslands: nat,
    /** `island_networks`, present on partial findings only. */
    islandNetworks: Option<seq<Node>>)

  function NetworkOf(issue: Issue): Node {
    issue.network
  }

  // ---------------------------------------------------------------------------------------------
  // Specification

  /** The networks a router connects: those it is on, and those its subnets belong to
      (`serves-network` plays no part here). */
  function RouterNetworks(g: Graph, r: Node): set<Node> {
    Elems(Objects(g, r, DeviceOnNetwork) + Via(g, r, DeviceOnSubnet, SubnetOfNetwork))
  }

  /** The networks the routers `rs` join to `a`. */
  function Linked(g: Graph, rs: seq<Node>, a: Node): set<Node> {
    set r, b | r in rs && a in RouterNetworks(g, r) && b in RouterNetworks(g, r) && b != a :: b
  }

  /** `network_connections`, as an adjacency relation. */
  function Neighbours(g: Graph): Node -> set<Node> {
    a => Linked(g, OfType(g, RouterClass), a)
  }

  /** The networks the routers `rs` connect. */
  function Discovered(g: Graph, rs: seq<Node>): set<Node> {
    set r, n | r in rs && n in RouterNetworks(g, r) :: n
  }

  /** The BACnetNetwork-typed nodes. */
  function TypedNetworks(g: Graph): set<Node> {
    Elems(OfType(g, NetworkClass))
  }

  /** `networks` once the routers have been read: the typed ones and every network a router
      connects. */
  function Networks(g: Graph): set<Node> {
    TypedNetworks(g) + Discovered(g, OfType(g, RouterClass))
  }

  /** The island of `n`: every network it reaches through router connections. */
  ghost function Island(g: Graph, n: Node): set<Node> {
    ReachSet(Neighbours(g), Networks(g), n)
  }

  /** The islands: one per class of mutually reachable networks. */
  ghost function Islands(g: Graph): set<set<Node>> {
    set n | n in Networks(g) :: Island(g, n)
  }

  /** `_get_network_name`: the first label; else "Network " and the first network number; else
      the text after the last '/' of the URI, or the whole URI. */
  function NetworkName(g: Graph, n: Node): (r: string)
    ensures First(g, n, RdfsLabel).None? && First(g, n, NetworkNumber).None? ==> '/' !in r && EndsWith(n, r)
  {
    match First(g, n, RdfsLabel)
    case Some(l) => l
    case None =>
      match First(g, n, NetworkNumber)
      case Some(v) => "Network " + v
      case None => if '/' in n then AfterLast(n, '/') else n
  }

  /** What every finding says about its network. */
  ghost predicate Fits(g: Graph, total: nat, count: nat, issue: Issue) {
    && issue.issueType == "unreachable-networks" && issue.severity == High
    && issue.network in Networks(g)
    && issue.networkName == NetworkName(g, issue.network)
    && issue.totalNetworks == total && issue.networkIslands == count
    && |Island(g, issue.network)| == issue.reachableNetworks + 1
    && (issue.isolationType == "isolated" <==> Island(g, issue.network) == {issue.network})
    && (issue.isolationType == "isolated" ==> issue.islandNetworks == None)
    && (issue.isolationType != "isolated" ==>
          && issue.isolationType == "partial" && issue.islandNetworks.Some?
          && Elems(issue.islandNetworks.value) == Island(g, issue.network)
          && Distinct(issue.islandNetworks.value))
  }

  // ---------------------------------------------------------------------------------------------
  // Properties of the connection relation

  /** Connections go both ways, and never from a network to itself. */
  lemma ConnectionsSymmetric(g: Graph, a: Node, b: Node)
    ensures b in Neighbours(g)(a) <==> a in Neighbours(g)(b)
    ensures a !in Neighbours(g)(a)
  {
    if b in Neighbours(g)(a) {
      var r :| r in OfType(g, RouterClass) && a in RouterNetworks(g, r) && b in RouterNetworks(g, r) && b != a;
      assert a in Linked(g, OfType(g, RouterClass), b);
    }
    if a in Neighbours(g)(b) {
      var r :| r in OfType(g, RouterClass) && b in RouterNetworks(g, r) && a in RouterNetworks(g, r) && a != b;
      assert b in Linked(g, OfType(g, RouterClass), a);
    }
  }

  /** A connection leads from a known network to a known network. */
  lemma ConnectionsInside(g: Graph)
    ensures Closed(Neighbours(g), Networks(g))
    ensures Symmetric(Neighbours(g), Networks(g))
  {
    forall a, b | b in Neighbours(g)(a) ensures b in Networks(g) && a in Neighbours(g)(b) {
      var r :| r in OfType(g, RouterClass) && a in RouterNetworks(g, r) && b in RouterNetworks(g, r) && b != a;
      assert b in Discovered(g, OfType(g, RouterClass));
      ConnectionsSymmetric(g, a, b);
    }
  }

  /** Every network of an island has that island as its own. */
  lemma IslandOfMember(g: Graph, island: set<Node>, n: Node)
    requires island in Islands(g) && n in island
    ensures Island(g, n) == island
  {
    var m :| m in Networks(g) && Island(g, m) == island;
    ConnectionsInside(g);
    ReachSetShared(Neighbours(g), Networks(g), m, n);
  }

  /** The islands partition the networks: each is non-empty, two of them are equal or share
      nothing, and together they hold every network. */
  lemma IslandsPartition(g: Graph)
    ensures forall i | i in Islands(g) :: i != {} && i <= Networks(g)
    ensures forall i, j | i in Islands(g) && j in Islands(g) && i != j :: i !! j
    ensures forall n | n in Networks(g) :: n in Island(g, n) && Island(g, n) in Islands(g)
  {
    ConnectionsInside(g);
    forall n | n in Networks(g) ensures n in Island(g, n) {
      ReachSetHasStart(Neighbours(g), Networks(g), n);
    }
    forall i, j | i in Islands(g) && j in Islands(g) && i != j ensures i !! j {
      var m :| m in Networks(g) && Island(g, m) == i;
      var n :| n in Networks(g) && Island(g, n) == j;
      ReachSetsDisjoint(Neighbours(g), Networks(g), m, n);
    }
  }

  /** A network lies on its own island. */
  lemma IslandHasSelf(g: Graph, n: Node)
    requires n in Networks(g)
    ensures n in Island(g, n) && Island(g, n) in Islands(g)
  {
    ReachSetHasStart(Neighbours(g), Networks(g), n);
  }

  /** An island holds known networks only. */
  lemma IslandInside(g: Graph, island: set<Node>)
    requires island in Islands(g)
    ensures island <= Networks(g) && island != {}
  {
    var m :| m in Networks(g) && Island(g, m) == island;
    IslandHasSelf(g, m);
  }

  /** Two different islands share nothing. */
  lemma IslandsApart(g: Graph, i: set<Node>, j: set<Node>)
    requires i in Islands(g) && j in Islands(g) && i != j
    ensures i !! j
  {
    var m :| m in Networks(g) && Island(g, m) == i;
    var n :| n in Networks(g) && Island(g, n) == j;
    ConnectionsInside(g);
    ReachSetsDisjoint(Neighbours(g), Networks(g), m, n);
  }

  /** One island means every network reaches every other; that is when nothing is reported. */
  lemma OneIslandConnected(g: Graph)
    requires Networks(g) != {}
    ensures |Islands(g)| == 1 <==> forall a, b | a in Networks(g) && b in Networks(g) :: b in Island(g, a)
  {
    var a :| a in Networks(g);
    var one := Island(g, a);
    IslandHasSelf(g, a);
    SingletonSet(Islands(g), one);
    if |Islands(g)| == 1 {
      forall m, n | m in Networks(g) && n in Networks(g) ensures n in Island(g, m) {
        IslandHasSelf(g, m);
        IslandHasSelf(g, n);
      }
    } else {
      var j :| j in Islands(g) && j != one;
      var n :| n in Networks(g) && Island(g, n) == j;
      IslandHasSelf(g, n);
      ConnectionsInside(g);
      ReachSetsDisjoint(Neighbours(g), Networks(g), a, n);
    }
  }

  /** The routers one more router brings in. */
  lemma LinkedSnoc(g: Graph, rs: seq<Node>, r: Node, a: Node)
    ensures Linked(g, rs + [r], a) == Linked(g, rs, a) + (if a in RouterNetworks(g, r) then RouterNetworks(g, r) - {a} else {})
  {
    var more := if a in RouterNetworks(g, r) then RouterNetworks(g, r) - {a} else {};
    forall b | b in Linked(g, rs + [r], a) ensures b in Linked(g, rs, a) + more {
      var q :| q in rs + [r] && a in RouterNetworks(g, q) && b in RouterNetworks(g, q) && b != a;
      if q != r {
        assert q in rs;
      }
    }
  }

  lemma DiscoveredSnoc(g: Graph, rs: seq<Node>, r: Node)
    ensures Discovered(g, rs + [r]) == Discovered(g, rs) + RouterNetworks(g, r)
  {
    forall n | n in Discovered(g, rs + [r]) ensures n in Discovered(g, rs) + RouterNetworks(g, r) {
      var q :| q in rs + [r] && n in RouterNetworks(g, q);
      if q != r {
        assert q in rs;
      }
    }
  }

  // ---------------------------------------------------------------------------------------------
  // The analyzer

  /** The first loop: every BACnetNetwork-typed node. */
  method CollectTypedNetworks(g: Graph) returns (networks: set<Node>)
    ensures networks == TypedNetworks(g)
  {
    var typed := OfType(g, NetworkClass);
    networks := {};
    for i := 0 to |typed|
      invariant networks == Elems(typed[..i])
    {
      assert typed[..i + 1] == typed[..i] + [typed[i]];
      ElemsAppend(typed[..i], [typed[i]]);
      networks := networks + {typed[i]};
    }
    assert typed[..|typed|] == typed;
  }

  /** `router_networks` of one router. */
  method NetworksOfRouter(g: Graph, router: Node) returns (nets: set<Node>)
    ensures nets == RouterNetworks(g, router)
  {
    ElemsAppend(Objects(g, router, DeviceOnNetwork), Via(g, router, DeviceOnSubnet, SubnetOfNetwork));
    nets := AddObjects(g, router, DeviceOnNetwork, {});
    nets := AddVia(g, router, DeviceOnSubnet, SubnetOfNetwork, nets);
  }

  /** The two nested loops over `list(router_networks)`: every network of the list gains every
      other network of the list as a connection. */
  method Connect(conn: map<Node, set<Node>>, nets: seq<Node>) returns (r: map<Node, set<Node>>)
    requires Distinct(nets)
    ensures forall a :: Succ(r, a) == Succ(conn, a) + (if a in nets then Elems(nets) - {a} else {})
  {
    r := conn;
    for i := 0 to |nets|
      invariant forall a :: Succ(r, a) == Succ(conn, a) + (if a in nets[..i] then Elems(nets) - {a} else {})
    {
      assert nets[..i + 1] == nets[..i] + [nets[i]];
      assert nets[i] !in nets[..i];
      r := ConnectOne(r, nets, i);
    }
    assert nets[..|nets|] == nets;
  }

  /** The inner loop for `network1 = nets[i]`. */
  method ConnectOne(conn: map<Node, set<Node>>, nets: seq<Node>, i: nat) returns (r: map<Node, set<Node>>)
    requires Distinct(nets) && i < |nets|
    ensures forall a :: Succ(r, a) == Succ(conn, a) + (if a == nets[i] then Elems(nets) - {a} else {})
  {
    r := conn;
    for j := 0 to |nets|
      invariant forall a :: Succ(r, a) == Succ(conn, a) + (if a == nets[i] then Elems(nets[..j]) - {a} else {})
    {
      assert nets[..j + 1] == nets[..j] + [nets[j]];
      ElemsAppend(nets[..j], [nets[j]]);
      assert Elems([nets[j]]) == {nets[j]};
      if i != j {
        r := r[nets[i] := Succ(r, nets[i]) + {nets[j]}];
      }
    }
    assert nets[..|nets|] == nets;
  }

  /** One router's connections, added to those of the routers before it. */
  lemma ConnectStep(g: Graph, conn: map<Node, set<Node>>, conn': map<Node, set<Node>>, rs: seq<Node>,
                    r: Node, list: seq<Node>)
    requires forall a :: Succ(conn, a) == Linked(g, rs, a)
    requires Elems(list) == RouterNetworks(g, r)
    requires forall a :: Succ(conn', a) == Succ(conn, a) + (if a in list then Elems(list) - {a} else {})
    ensures forall a :: Succ(conn', a) == Linked(g, rs + [r], a)
  {
    forall a ensures Succ(conn', a) == Linked(g, rs + [r], a) {
      LinkedSnoc(g, rs, r, a);
      assert a in list <==> a in Elems(list);
    }
  }

  /** The body of the router loop for one router. */
  method AddRouter(g: Graph, typed: set<Node>, ghost rs: seq<Node>, router: Node,
                   networks: set<Node>, conn: map<Node, set<Node>>)
    returns (networks': set<Node>, conn': map<Node, set<Node>>)
    requires networks == typed + Discovered(g, rs)
    requires forall a :: Succ(conn, a) == Linked(g, rs, a)
    ensures networks' == typed + Discovered(g, rs + [router])
    ensures forall a :: Succ(conn', a) == Linked(g, rs + [router], a)
  {
    DiscoveredSnoc(g, rs, router);
    var routerNetworks := NetworksOfRouter(g, router);
    networks' := networks + routerNetworks;
    var list := ListOf(routerNetworks);
    conn' := Connect(conn, list);
    ConnectStep(g, conn, conn', rs, router, list);
  }

  /** The router loop: it adds every network a router connects to `networks` and fills
      `network_connections`. The routers are visited in triple order; the sets built do not depend
      on the order. */
  method BuildTopology(g: Graph, typed: set<Node>) returns (networks: set<Node>, conn: map<Node, set<Node>>)
    ensures networks == typed + Discovered(g, OfType(g, RouterClass))
    ensures forall a :: Succ(conn, a) == Neighbours(g)(a)
  {
    var routers := OfType(g, RouterClass);
    networks, conn := typed, map[];
    for i := 0 to |routers|
      invariant networks == typed + Discovered(g, routers[..i])
      invariant forall a :: Succ(conn, a) == Linked(g, routers[..i], a)
    {
      assert routers[..i + 1] == routers[..i] + [routers[i]];
      networks, conn := AddRouter(g, typed, routers[..i], routers[i], networks, conn);
    }
    assert routers[..|routers|] == routers;
  }

  /** The island loop: each network not yet on an island seeds a new one, its breadth-first
      closure. The networks are taken in the set's iteration order (any order); whatever the order,
      the islands found are the classes of mutually reachable networks, each once. */
  method FindIslands(g: Graph, conn: map<Node, set<Node>>, networks: set<Node>) returns (islands: seq<set<Node>>)
    requires networks == Networks(g)
    requires forall a :: Succ(conn, a) == Neighbours(g)(a)
    ensures Distinct(islands) && Elems(islands) == Islands(g)
  {
    ConnectionsInside(g);
    islands := [];
    var processed: set<Node> := {};
    var rest := networks;
    while rest != {}
      invariant rest <= networks && networks - rest <= processed
      invariant processed == Union(islands) && processed <= networks
      invariant Distinct(islands) && Elems(islands) <= Islands(g)
      decreases |rest|
    {
      var network :| network in rest;
      rest := rest - {network};
      if network in processed {
        continue;
      }
      var reachable := Explore(conn, Neighbours(g), networks, network);
      NewIsland(g, islands, network);
      islands := islands + [reachable];
      processed := processed + reachable;
    }
    IslandsCovered(g, islands);
  }

  /** The island of a network on none of the islands so far is a new island. */
  lemma NewIsland(g: Graph, islands: seq<set<Node>>, network: Node)
    requires network in Networks(g) && network !in Union(islands)
    requires Distinct(islands) && Elems(islands) <= Islands(g)
    ensures network in Island(g, network)
    ensures var more := islands + [Island(g, network)];
      Distinct(more) && Elems(more) <= Islands(g) && Union(more) == Union(islands) + Island(g, network)
  {
    var reachable := Island(g, network);
    IslandHasSelf(g, network);
    UnionMember(islands, network);
    assert reachable !in islands by {
      forall k | 0 <= k < |islands| ensures islands[k] != reachable {
        assert network !in islands[k];
      }
    }
    DistinctSnoc(islands, reachable);
    ElemsAppend(islands, [reachable]);
    assert islands + [reachable] == (islands + [reachable])[..|islands| + 1];
    UnionStep(islands + [reachable], |islands|);
    assert (islands + [reachable])[..|islands|] == islands;
  }

  /** Islands of the analysis that hold every network are all the islands there are. */
  lemma IslandsCovered(g: Graph, islands: seq<set<Node>>)
    requires Elems(islands) <= Islands(g) && Networks(g) <= Union(islands)
    ensures Elems(islands) == Islands(g)
  {
    forall i | i in Islands(g) ensures i in Elems(islands) {
      var n :| n in Networks(g) && Island(g, n) == i;
      UnionMember(islands, n);
      var k :| 0 <= k < |islands| && n in islands[k];
      IslandOfMember(g, islands[k], n);
    }
  }

  /** The finding for a network of an island of several. */
  function PartialOf(g: Graph, islandNetworks: seq<Node>, reachable: nat, total: nat, count: nat): Node -> Issue {
    n => Issue("unreachable-networks", High, n, NetworkName(g, n), "partial", total,
               reachable, count, Some(islandNetworks))
  }

  /** A partial finding fits its network. */
  lemma PartialFits(g: Graph, island: set<Node>, islandNetworks: seq<Node>, total: nat, count: nat, n: Node)
    requires island in Islands(g) && n in island && |island| > 1
    requires Elems(islandNetworks) == island && Distinct(islandNetworks)
    ensures Fits(g, total, count, PartialOf(g, islandNetworks, |island| - 1, total, count)(n))
  {
    IslandOfMember(g, island, n);
    IslandInside(g, island);
    SingletonSet(island, n);
  }

  /** The finding for a lone network fits it. */
  lemma IsolatedFits(g: Graph, island: set<Node>, n: Node, total: nat, count: nat)
    requires island in Islands(g) && island == {n}
    ensures Fits(g, total, count, Issue("unreachable-networks", High, n, NetworkName(g, n), "isolated", total, 0, count, None))
  {
    IslandOfMember(g, island, n);
    IslandInside(g, island);
  }

  /** The findings for one island: one 'isolated' finding for a lone network, else one 'partial'
      finding for each of its networks. */
  method IslandFindings(g: Graph, island: set<Node>, total: nat, count: nat) returns (found: seq<Issue>)
    requires island in Islands(g)
    ensures Elems(Map(found, NetworkOf)) == island && Distinct(Map(found, NetworkOf))
    ensures forall k | 0 <= k < |found| :: Fits(g, total, count, found[k])
  {
    var islandNetworks := ListOf(island);
    DistinctElems(islandNetworks);
    IslandInside(g, island);
    if |island| == 1 {
      var network := islandNetworks[0];
      SingletonSet(island, network);
      found := [Issue("unreachable-networks", High, network, NetworkName(g, network), "isolated",
                      total, 0, count, None)];
      IsolatedFits(g, island, network, total, count);
      assert Map(found, NetworkOf) == [network];
      assert Elems([network]) == {network};
      return;
    }
    found := PartialFindings(g, island, islandNetworks, total, count);
  }

  /** The loop over `list(island)` for an island of several networks. */
  method PartialFindings(g: Graph, island: set<Node>, islandNetworks: seq<Node>, total: nat, count: nat)
    returns (found: seq<Issue>)
    requires island in Islands(g) && |island| > 1
    requires Elems(islandNetworks) == island && Distinct(islandNetworks)
    ensures Map(found, NetworkOf) == islandNetworks
    ensures forall k | 0 <= k < |found| :: Fits(g, total, count, found[k])
  {
    ghost var partial := PartialOf(g, islandNetworks, |island| - 1, total, count);
    found := [];
    for j := 0 to |islandNetworks|
      invariant found == Map(islandNetworks[..j], partial)
    {
      MapStep(islandNetworks, j, partial);
      var network := islandNetworks[j];
      found := found + [Issue("unreachable-networks", High, network, NetworkName(g, network), "partial",
                              total, |island| - 1, count, Some(islandNetworks))];
    }
    assert islandNetworks[..|islandNetworks|] == islandNetworks;
    MapRoundTrip(islandNetworks, partial, NetworkOf);
    forall k | 0 <= k < |found| ensures Fits(g, total, count, found[k]) {
      PartialFits(g, island, islandNetworks, total, count, islandNetworks[k]);
    }
  }

  /** The report loop over the islands, in the order they were found. */
  method ReportIslands(g: Graph, islands: seq<set<Node>>, total: nat) returns (issues: seq<Issue>, affectedNodes: seq<Node>)
    requires Distinct(islands) && Elems(islands) == Islands(g)
    ensures affectedNodes == Map(issues, NetworkOf)
    ensures Elems(affectedNodes) == Networks(g) && Distinct(affectedNodes)
    ensures forall k | 0 <= k < |issues| :: Fits(g, total, |islands|, issues[k])
  {
    issues, affectedNodes := [], [];
    for i := 0 to |islands|
      invariant affectedNodes == Map(issues, NetworkOf)
      invariant Elems(affectedNodes) == Union(islands[..i]) && Distinct(affectedNodes)
      invariant forall k | 0 <= k < |issues| :: Fits(g, total, |islands|, issues[k])
    {
      var found := IslandFindings(g, islands[i], total, |islands|);
      IslandApart(g, islands, i);
      UnionStep(islands, i);
      DistinctAppend(affectedNodes, Map(found, NetworkOf));
      ElemsAppend(affectedNodes, Map(found, NetworkOf));
      MapAppend(issues, found, NetworkOf);
      FitsAppend(g, total, |islands|, issues, found);
      issues := issues + found;
      affectedNodes := affectedNodes + Map(found, NetworkOf);
    }
    assert islands[..|islands|] == islands;
    NetworksCovered(g, islands);
  }

  /** `check_unreachable_networks`: nothing unless there are two typed networks and more than one
      island; then exactly one high finding per network, telling its island apart from the rest. */
  method CheckUnreachableNetworks(g: Graph) returns (issues: seq<Issue>, affectedNodes: seq<Node>)
    ensures |TypedNetworks(g)| < 2 ==> issues == []
    ensures |TypedNetworks(g)| >= 2 ==> (issues == [] <==> |Islands(g)| == 1)
    ensures affectedNodes == Map(issues, NetworkOf)
    ensures issues != [] ==> Elems(affectedNodes) == Networks(g) && Distinct(affectedNodes)
    ensures forall k | 0 <= k < |issues| :: Fits(g, |Networks(g)|, |Islands(g)|, issues[k])
  {
    issues, affectedNodes := [], [];
    var networks := CollectTypedNetworks(g);
    if |networks| < 2 {
      return;
    }
    var conn;
    networks, conn := BuildTopology(g, networks);
    var islands := FindIslands(g, conn, networks);
    DistinctElems(islands);
    if |islands| > 1 {
      issues, affectedNodes := ReportIslands(g, islands, |networks|);
      assert affectedNodes != [] by {
        var n :| n in TypedNetworks(g);
        assert n in Elems(affectedNodes);
      }
    } else {
      SingletonIsland(g, islands);
    }
  }

  /** Findings that fit, joined, still fit. */
  lemma FitsAppend(g: Graph, total: nat, count: nat, a: seq<Issue>, b: seq<Issue>)
    requires forall k | 0 <= k < |a| :: Fits(g, total, count, a[k])
    requires forall k | 0 <= k < |b| :: Fits(g, total, count, b[k])
    ensures forall k | 0 <= k < |a + b| :: Fits(g, total, count, (a + b)[k])
  {
    forall k | 0 <= k < |a + b| ensures Fits(g, total, count, (a + b)[k]) {
      if k < |a| {
        assert (a + b)[k] == a[k];
      } else {
        assert (a + b)[k] == b[k - |a|];
      }
    }
  }

  /** An island shares nothing with the islands before it. */
  lemma IslandApart(g: Graph, islands: seq<set<Node>>, i: nat)
    requires Distinct(islands) && Elems(islands) == Islands(g) && i < |islands|
    ensures Union(islands[..i]) !! islands[i]
  {
    forall n | n in Union(islands[..i]) ensures n !in islands[i] {
      UnionMember(islands[..i], n);
      var k :| 0 <= k < i && n in islands[..i][k];
      assert islands[k] in Elems(islands) && islands[i] in Elems(islands);
      IslandsApart(g, islands[k], islands[i]);
    }
  }

  /** Together the islands hold every network. */
  lemma NetworksCovered(g: Graph, islands: seq<set<Node>>)
    requires Elems(islands) == Islands(g)
    ensures Union(islands) == Networks(g)
  {
    forall n | n in Networks(g) ensures n in Union(islands) {
      IslandHasSelf(g, n);
      assert Island(g, n) in Elems(islands);
      UnionMember(islands, n);
    }
    forall n | n in Union(islands) ensures n in Networks(g) {
      UnionMember(islands, n);
      var k :| 0 <= k < |islands| && n in islands[k];
      assert islands[k] in Elems(islands);
      IslandInside(g, islands[k]);
    }
  }

  /** With two typed networks there is at least one island, so "not more than one" is one. */
  lemma SingletonIsland(g: Graph, islands: seq<set<Node>>)
    requires Distinct(islands) && Elems(islands) == Islands(g) && |Elems(islands)| == |islands| <= 1
    requires Networks(g) != {}
    ensures |Islands(g)| == 1
  {
    var n :| n in Networks(g);
    IslandHasSelf(g, n);
  }
}
