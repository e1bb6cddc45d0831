/** graph_checks/missing_routers.py: networks that hold devices but that no router is on, serves or
    reaches through a subnet. */
module MissingRouters {
  import opened Wrappers
  import opened Seqs
  import opened Bacnet

  /** One entry of `isolated_networks`: the network and its first label, or its URI without one. */
  datatype NetworkDetail = NetworkDetail(networkUri: Node, networkLabel: string)

  datatype Issue = Issue(
    issueType: string,
    severity: Severity,
    isolatedNetworks: seq<NetworkDetail>,
    totalNetworks: nat,
    routedNetworks: nat)

  // ---------------------------------------------------------------------------------------------
  // Specification

  /** A device's networks: those it is on, then those its subnets belong to. */
  function DeviceNetsOf(g: Graph): Node -> seq<Node> {
    d => Objects(g, d, DeviceOnNetwork) + Via(g, d, DeviceOnSubnet, SubnetOfNetwork)
  }

  /** A router's networks: those it is on, those it serves, and those its subnets belong to. */
  function RouterNetsOf(g: Graph): Node -> seq<Node> {
    r => Objects(g, r, DeviceOnNetwork) + Objects(g, r, ServesNetwork) + Via(g, r, DeviceOnSubnet, SubnetOfNetwork)
  }

  /** `networks_with_devices`. */
  function DeviceNetworks(g: Graph): set<Node> {
    Elems(FlatMap(OfType(g, DeviceClass), DeviceNetsOf(g)))
  }

  /** `networks_with_routers`. */
  function RoutedNetworks(g: Graph): set<Node> {
    Elems(FlatMap(OfType(g, RouterClass), RouterNetsOf(g)))
  }

  /** A network has devices iff some Device is on it directly or through a subnet of it. */
  lemma DeviceNetworksSpec(g: Graph, n: Node)
    ensures n in DeviceNetworks(g) <==>
      exists d ::
        && Triple(d, RdfType, DeviceClass) in g
        && (|| Triple(d, DeviceOnNetwork, n) in g
            || exists s :: Triple(d, DeviceOnSubnet, s) in g && Triple(s, SubnetOfNetwork, n) in g)
  {
    FlatMapMember(OfType(g, DeviceClass), DeviceNetsOf(g), n);
    forall d ensures n in DeviceNetsOf(g)(d) <==>
      Triple(d, DeviceOnNetwork, n) in g || exists s :: Triple(d, DeviceOnSubnet, s) in g && Triple(s, SubnetOfNetwork, n) in g
    {
      ViaSpec(g, d, DeviceOnSubnet, SubnetOfNetwork, n);
    }
  }

  /** A network is routed iff some Router is on it, serves it, or is on a subnet of it. */
  lemma RoutedNetworksSpec(g: Graph, n: Node)
    ensures n in RoutedNetworks(g) <==>
      exists r ::
        && Triple(r, RdfType, RouterClass) in g
        && (|| Triple(r, DeviceOnNetwork, n) in g
            || Triple(r, ServesNetwork, n) in g
            || exists s :: Triple(r, DeviceOnSubnet, s) in g && Triple(s, SubnetOfNetwork, n) in g)
  {
    FlatMapMember(OfType(g, RouterClass), RouterNetsOf(g), n);
    forall r ensures n in RouterNetsOf(g)(r) <==>
      Triple(r, DeviceOnNetwork, n) in g || Triple(r, ServesNetwork, n) in g ||
      exists s :: Triple(r, DeviceOnSubnet, s) in g && Triple(s, SubnetOfNetwork, n) in g
    {
      ViaSpec(g, r, DeviceOnSubnet, SubnetOfNetwork, n);
    }
  }

  /** The entry for one isolated network. */
  function DetailOf(g: Graph): Node -> NetworkDetail {
    n => NetworkDetail(n, First(g, n, RdfsLabel).GetOr(n))
  }

  function UriOf(d: NetworkDetail): Node {
    d.networkUri
  }

  // ---------------------------------------------------------------------------------------------
  // The analyzer

  /** The first loop: every network of every Device. */
  method CollectDeviceNetworks(g: Graph) returns (networks: set<Node>)
    ensures networks == DeviceNetworks(g)
  {
    var devices := OfType(g, DeviceClass);
    networks := {};
    for i := 0 to |devices|
      invariant networks == Elems(FlatMap(devices[..i], DeviceNetsOf(g)))
    {
      var device := devices[i];
      FlatMapStep(devices, i, DeviceNetsOf(g));
      ElemsAppend(FlatMap(devices[..i], DeviceNetsOf(g)), DeviceNetsOf(g)(device));
      ElemsAppend(Objects(g, device, DeviceOnNetwork), Via(g, device, DeviceOnSubnet, SubnetOfNetwork));
      networks := AddObjects(g, device, DeviceOnNetwork, networks);
      networks := AddVia(g, device, DeviceOnSubnet, SubnetOfNetwork, networks);
    }
    assert devices[..|devices|] == devices;
  }

  /** The second loop: every network of every Router. */
  method CollectRoutedNetworks(g: Graph) returns (networks: set<Node>)
    ensures networks == RoutedNetworks(g)
  {
    var routers := OfType(g, RouterClass);
    networks := {};
    for i := 0 to |routers|
      invariant networks == Elems(FlatMap(routers[..i], RouterNetsOf(g)))
    {
      var router := routers[i];
      FlatMapStep(routers, i, RouterNetsOf(g));
      var on, serves, via := Objects(g, router, DeviceOnNetwork), Objects(g, router, ServesNetwork),
        Via(g, router, DeviceOnSubnet, SubnetOfNetwork);
      ElemsAppend(FlatMap(routers[..i], RouterNetsOf(g)), on + serves + via);
      ElemsAppend(on + serves, via);
      ElemsAppend(on, serves);
      networks := AddObjects(g, router, DeviceOnNetwork, networks);
      networks := AddObjects(g, router, ServesNetwork, networks);
      networks := AddVia(g, router, DeviceOnSubnet, SubnetOfNetwork, networks);
    }
    assert routers[..|routers|] == routers;
  }

  /** Each entry names the network it was made for. */
  lemma {:induction false} UrisOfDetails(g: Graph, uris: seq<Node>)
    ensures Map(Map(uris, DetailOf(g)), UriOf) == uris
  {
    if uris != [] {
      UrisOfDetails(g, uris[1..]);
    }
  }

  /** The entries of the isolated networks, in the set's iteration order (any order). */
  method Details(g: Graph, isolated: set<Node>) returns (details: seq<NetworkDetail>)
    ensures Elems(Map(details, UriOf)) == isolated
    ensures Distinct(Map(details, UriOf))
    ensures details == Map(Map(details, UriOf), DetailOf(g))
  {
    details := [];
    ghost var uris: seq<Node> := [];
    var rest := isolated;
    while rest != {}
      invariant Elems(uris) + rest == isolated
      invariant Elems(uris) !! rest
      invariant Distinct(uris)
      invariant details == Map(uris, DetailOf(g))
      decreases |rest|
    {
      var network :| network in rest;
      var name := First(g, network, RdfsLabel).GetOr(network);
      MapSnoc(uris, network, DetailOf(g));
      ListStep(uris, rest, isolated, network);
      details := details + [NetworkDetail(network, name)];
      uris := uris + [network];
      rest := rest - {network};
    }
    UrisOfDetails(g, uris);
  }

  /** `check_missing_routers`: with two or more device-bearing networks, one medium finding listing
      every such network that no router reaches, each once; otherwise, or when every one is reached,
      nothing. The affected nodes are those networks; the affected triples are always empty. */
  method CheckMissingRouters(g: Graph)
    returns (issues: seq<Issue>, affectedTriples: seq<Triple>, affectedNodes: seq<Node>)
    ensures affectedTriples == []
    ensures |issues| <= 1
    ensures issues != [] <==> |DeviceNetworks(g)| >= 2 && DeviceNetworks(g) - RoutedNetworks(g) != {}
    ensures issues == [] ==> affectedNodes == []
    ensures issues != [] ==>
      && issues[0].issueType == "missing-routers" && issues[0].severity == Medium
      && issues[0].totalNetworks == |DeviceNetworks(g)| && issues[0].routedNetworks == |RoutedNetworks(g)|
      && affectedNodes == Map(issues[0].isolatedNetworks, UriOf)
      && Elems(affectedNodes) == DeviceNetworks(g) - RoutedNetworks(g)
      && Distinct(affectedNodes) && |affectedNodes| == |DeviceNetworks(g) - RoutedNetworks(g)|
      && issues[0].isolatedNetworks == Map(affectedNodes, DetailOf(g))
  {
    issues, affectedTriples, affectedNodes := [], [], [];
    var withDevices := CollectDeviceNetworks(g);
    var withRouters := CollectRoutedNetworks(g);
    if |withDevices| < 2 {
      return;
    }
    var isolated := withDevices - withRouters;
    if isolated != {} {
      var details := Details(g, isolated);
      issues := [Issue("missing-routers", Medium, details, |withDevices|, |withRouters|)];
      affectedNodes := Map(details, UriOf);
      DistinctElems(affectedNodes);
    }
  }
}
