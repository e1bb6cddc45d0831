/** graph_checks/duplicate_devices.py: one device-instance value used by several subjects that sit on
    more than one network or subnet. */
module DuplicateDevices {
  import opened Wrappers
  import opened Seqs
  import opened Bacnet
  import opened Grouping

  /** A subject's place: a network or subnet value, tagged "network" or "subnet". */
  datatype Membership = Membership(scope: string, kind: string)

  /** One entry of the finding's flattened `devices` list. */
  datatype Placement = Placement(device: Node, network: string, networkType: string)

  datatype Issue = Issue(
    issueType: string,
    deviceId: string,
    deviceCount: nat,
    devices: seq<Placement>,
    networks: seq<Membership>)

  // ---------------------------------------------------------------------------------------------
  // Specification

  function InstanceTest(): Triple -> bool {
    (t: Triple) => t.p == DeviceInstance
  }

  function InstancePair(t: Triple): (string, Node) {
    (t.o, t.s)
  }

  /** (device-instance value, subject) for every device-instance triple, in graph order, whatever
      the subject's type. */
  function InstancePairs(g: Graph): seq<(string, Node)> {
    Map(Filter(g, InstanceTest()), InstancePair)
  }

  /** The grouping keys are exactly the device-instance values present in the graph. */
  lemma InstanceKeys(g: Graph, k: string)
    ensures k in Keys(InstancePairs(g)) <==> exists d :: Triple(d, DeviceInstance, k) in g
  {
    var f := Filter(g, InstanceTest());
    FilterSpec(g, InstanceTest());
    if k in Keys(InstancePairs(g)) {
      var p :| p in InstancePairs(g) && p.0 == k;
      var i :| 0 <= i < |f| && InstancePairs(g)[i] == p;
      assert f[i] in f;
      assert Triple(p.1, DeviceInstance, k) == f[i];
    }
    if exists d :: Triple(d, DeviceInstance, k) in g {
      var d :| Triple(d, DeviceInstance, k) in g;
      var t := Triple(d, DeviceInstance, k);
      assert t in f;
      var i :| 0 <= i < |f| && f[i] == t;
      assert InstancePairs(g)[i] == (k, d);
    }
  }

  function OnNetwork(n: string): Membership {
    Membership(n, "network")
  }

  function OnSubnet(s: string): Membership {
    Membership(s, "subnet")
  }

  /** The device-on-network values tagged "network", then the device-on-subnet values tagged
      "subnet". */
  function Memberships(g: Graph, d: Node): seq<Membership> {
    Map(Objects(g, d, DeviceOnNetwork), OnNetwork) + Map(Objects(g, d, DeviceOnSubnet), OnSubnet)
  }

  lemma MembershipsSpec(g: Graph, d: Node, m: Membership)
    ensures m in Memberships(g, d) <==>
      (m.kind == "network" && Triple(d, DeviceOnNetwork, m.scope) in g) ||
      (m.kind == "subnet" && Triple(d, DeviceOnSubnet, m.scope) in g)
  {
    var ns := Objects(g, d, DeviceOnNetwork);
    var ss := Objects(g, d, DeviceOnSubnet);
    if m.kind == "network" && Triple(d, DeviceOnNetwork, m.scope) in g {
      var i :| 0 <= i < |ns| && ns[i] == m.scope;
      assert Map(ns, OnNetwork)[i] == m;
    }
    if m.kind == "subnet" && Triple(d, DeviceOnSubnet, m.scope) in g {
      var i :| 0 <= i < |ss| && ss[i] == m.scope;
      assert Map(ss, OnSubnet)[i] == m;
    }
    if m in Map(ns, OnNetwork) {
      var i :| 0 <= i < |ns| && Map(ns, OnNetwork)[i] == m;
      assert ns[i] in ns;
    }
    if m in Map(ss, OnSubnet) {
      var i :| 0 <= i < |ss| && Map(ss, OnSubnet)[i] == m;
      assert ss[i] in ss;
    }
  }

  function MembershipsOf(g: Graph): Node -> seq<Membership> {
    d => Memberships(g, d)
  }

  function PlaceAt(d: Node): Membership -> Placement {
    (m: Membership) => Placement(d, m.scope, m.kind)
  }

  function Placements(d: Node, ms: seq<Membership>): seq<Placement> {
    Map(ms, PlaceAt(d))
  }

  function PlacementsOf(g: Graph): Node -> seq<Placement> {
    d => Placements(d, Memberships(g, d))
  }

  function AboutOf(g: Graph): Node -> seq<Triple> {
    d => About(g, d)
  }

  /** The finding for one device-instance value and the subjects that carry it, in order. */
  function Finding(g: Graph, id: string, devices: seq<Node>): Option<Issue> {
    var unique := Dedup(FlatMap(devices, MembershipsOf(g)));
    if |devices| > 1 && |unique| > 1 then
      Some(Issue("duplicate-device-id", id, |devices|, FlatMap(devices, PlacementsOf(g)), unique))
    else None
  }

  /** A group is reported iff it has two or more subjects and more than one distinct membership;
      the count is the whole group, the flattened list has one entry per (subject, membership) and
      the distinct memberships are listed once each. */
  lemma FindingSpec(g: Graph, id: string, devices: seq<Node>)
    ensures var r := Finding(g, id, devices); var all := FlatMap(devices, MembershipsOf(g));
      && (r.Some? <==> |devices| > 1 && |Dedup(all)| > 1)
      && (r.Some? ==> r.value.issueType == "duplicate-device-id" && r.value.deviceId == id)
      && (r.Some? ==> r.value.deviceCount == |devices|)
      && (r.Some? ==> |r.value.devices| == |all|)
      && (r.Some? ==> Distinct(r.value.networks))
      && (r.Some? ==> forall m :: m in r.value.networks <==> exists d :: d in devices && m in Memberships(g, d))
  {
    var all := FlatMap(devices, MembershipsOf(g));
    PlacementCount(g, devices);
    forall m ensures m in all <==> exists d :: d in devices && m in Memberships(g, d) {
      FlatMapMember(devices, MembershipsOf(g), m);
    }
  }

  lemma {:induction false} PlacementCount(g: Graph, devices: seq<Node>)
    ensures |FlatMap(devices, PlacementsOf(g))| == |FlatMap(devices, MembershipsOf(g))|
  {
    if devices != [] {
      PlacementCount(g, devices[..|devices| - 1]);
    }
  }

  /** Subjects that all sit on one and the same place (two same-id devices on one network) are not
      reported. */
  lemma OnePlaceNoFinding(g: Graph, id: string, devices: seq<Node>, m: Membership)
    requires forall d | d in devices :: forall x | x in Memberships(g, d) :: x == m
    ensures Finding(g, id, devices).None?
  {
    var all := FlatMap(devices, MembershipsOf(g));
    forall x | x in all ensures x == m {
      FlatMapMember(devices, MembershipsOf(g), x);
    }
    DedupConstant(all, m);
  }

  function FindingOf(g: Graph, pairs: seq<(string, Node)>): string -> Option<Issue> {
    k => Finding(g, k, Values(pairs, k))
  }

  /** In verbose mode, every triple about every subject of a reported group. */
  function TriplesOf(g: Graph, pairs: seq<(string, Node)>, verbose: bool): string -> seq<Triple> {
    k => if verbose && Finding(g, k, Values(pairs, k)).Some? then FlatMap(Values(pairs, k), AboutOf(g)) else []
  }

  function DeviceIdOf(i: Issue): string {
    i.deviceId
  }

  // ---------------------------------------------------------------------------------------------
  // The analyzer

  /** The two loops that list a device's networks and then its subnets. */
  method NetworksOf(g: Graph, d: Node) returns (networks: seq<Membership>)
    ensures networks == Memberships(g, d)
  {
    networks := [];
    var ns := Objects(g, d, DeviceOnNetwork);
    for i := 0 to |ns|
      invariant networks == Map(ns[..i], OnNetwork)
    {
      MapStep(ns, i, OnNetwork);
      networks := networks + [OnNetwork(ns[i])];
    }
    assert ns[..|ns|] == ns;
    var ss := Objects(g, d, DeviceOnSubnet);
    for i := 0 to |ss|
      invariant networks == Map(ns, OnNetwork) + Map(ss[..i], OnSubnet)
    {
      MapStep(ss, i, OnSubnet);
      networks := networks + [OnSubnet(ss[i])];
    }
    assert ss[..|ss|] == ss;
  }

  /** The second pass: the memberships of every grouped subject that has any. */
  method DeviceNetworkMap(g: Graph, keys: seq<string>, groups: map<string, seq<Node>>)
    returns (dn: map<Node, seq<Membership>>)
    requires forall k | k in keys :: k in groups
    ensures forall d | d in dn :: dn[d] == Memberships(g, d) && dn[d] != []
    ensures forall k, d | k in keys && d in groups[k] :: Memberships(g, d) != [] ==> d in dn
  {
    dn := map[];
    for i := 0 to |keys|
      invariant forall d | d in dn :: dn[d] == Memberships(g, d) && dn[d] != []
      invariant forall j, d | 0 <= j < i && d in groups[keys[j]] :: Memberships(g, d) != [] ==> d in dn
    {
      var devices := groups[keys[i]];
      for m := 0 to |devices|
        invariant forall d | d in dn :: dn[d] == Memberships(g, d) && dn[d] != []
        invariant forall j, d | 0 <= j < i && d in groups[keys[j]] :: Memberships(g, d) != [] ==> d in dn
        invariant forall d | d in devices[..m] :: Memberships(g, d) != [] ==> d in dn
      {
        var networks := NetworksOf(g, devices[m]);
        if networks != [] {
          dn := dn[devices[m] := networks];
        }
      }
      assert devices[..|devices|] == devices;
    }
  }

  function InfoPlacements(info: (Node, seq<Membership>)): seq<Placement> {
    Placements(info.0, info.1)
  }

  /** The nested loop that flattens `device_info_list`. */
  method Flatten(infos: seq<(Node, seq<Membership>)>) returns (flat: seq<Placement>)
    ensures flat == FlatMap(infos, InfoPlacements)
  {
    flat := [];
    for i := 0 to |infos|
      invariant flat == FlatMap(infos[..i], InfoPlacements)
    {
      FlatMapStep(infos, i, InfoPlacements);
      var (device, networks) := infos[i];
      for j := 0 to |networks|
        invariant flat == FlatMap(infos[..i], InfoPlacements) + Placements(device, networks[..j])
      {
        MapStep(networks, j, PlaceAt(device));
        flat := flat + [Placement(device, networks[j].scope, networks[j].kind)];
      }
      assert networks[..|networks|] == networks;
    }
    assert infos[..|infos|] == infos;
  }

  /** The loop over one group that extends `network_sets` and `device_info_list` for every subject
      with memberships. */
  method GatherGroup(g: Graph, devices: seq<Node>, dn: map<Node, seq<Membership>>)
    returns (networkSets: seq<Membership>, infos: seq<(Node, seq<Membership>)>)
    requires forall d | d in dn :: dn[d] == Memberships(g, d) && dn[d] != []
    requires forall d | d in devices :: Memberships(g, d) != [] ==> d in dn
    ensures networkSets == FlatMap(devices, MembershipsOf(g))
    ensures FlatMap(infos, InfoPlacements) == FlatMap(devices, PlacementsOf(g))
  {
    networkSets, infos := [], [];
    for m := 0 to |devices|
      invariant networkSets == FlatMap(devices[..m], MembershipsOf(g))
      invariant FlatMap(infos, InfoPlacements) == FlatMap(devices[..m], PlacementsOf(g))
    {
      var device := devices[m];
      FlatMapStep(devices, m, MembershipsOf(g));
      FlatMapStep(devices, m, PlacementsOf(g));
      if device in dn {
        var networks := dn[device];
        networkSets := networkSets + networks;
        FlatMapAppend(infos, [(device, networks)], InfoPlacements);
        infos := infos + [(device, networks)];
      }
    }
    assert devices[..|devices|] == devices;
  }

  /** Every triple about each of `devices`, in order. */
  method TriplesAbout(g: Graph, devices: seq<Node>) returns (triples: seq<Triple>)
    ensures triples == FlatMap(devices, AboutOf(g))
  {
    triples := [];
    for m := 0 to |devices|
      invariant triples == FlatMap(devices[..m], AboutOf(g))
    {
      FlatMapStep(devices, m, AboutOf(g));
      triples := triples + About(g, devices[m]);
    }
    assert devices[..|devices|] == devices;
  }

  /** The third pass for one group: the finding, and in verbose mode the triples of its subjects. */
  method CheckGroup(g: Graph, id: string, devices: seq<Node>, dn: map<Node, seq<Membership>>, verbose: bool)
    returns (issue: Option<Issue>, triples: seq<Triple>)
    requires forall d | d in dn :: dn[d] == Memberships(g, d) && dn[d] != []
    requires forall d | d in devices :: Memberships(g, d) != [] ==> d in dn
    ensures issue == Finding(g, id, devices)
    ensures triples == (if verbose && issue.Some? then FlatMap(devices, AboutOf(g)) else [])
  {
    issue, triples := None, [];
    if |devices| <= 1 {
      return;
    }
    var networkSets, infos := GatherGroup(g, devices, dn);
    var unique := Dedup(networkSets);
    if |unique| > 1 {
      var flat := Flatten(infos);
      issue := Some(Issue("duplicate-device-id", id, |devices|, flat, unique));
      if verbose {
        triples := TriplesAbout(g, devices);
      }
    }
  }

  /** Each finding names the value it was made for. */
  lemma FindingNamesId(g: Graph, pairs: seq<(string, Node)>, keys: seq<string>)
    ensures forall x | x in keys && FindingOf(g, pairs)(x).Some? :: DeviceIdOf(FindingOf(g, pairs)(x).value) == x
  {
  }

  /** The third pass: one `CheckGroup` per key, in key order. */
  method ReportGroups(g: Graph, pairs: seq<(string, Node)>, keys: seq<string>, groups: map<string, seq<Node>>,
                      dn: map<Node, seq<Membership>>, verbose: bool)
    returns (issues: seq<Issue>, affectedTriples: seq<Triple>)
    requires forall k | k in keys :: k in groups && groups[k] == Values(pairs, k)
    requires forall d | d in dn :: dn[d] == Memberships(g, d) && dn[d] != []
    requires forall k, d | k in keys && d in groups[k] :: Memberships(g, d) != [] ==> d in dn
    ensures issues == Collect(keys, FindingOf(g, pairs))
    ensures affectedTriples == FlatMap(keys, TriplesOf(g, pairs, verbose))
  {
    issues, affectedTriples := [], [];
    for i := 0 to |keys|
      invariant issues == Collect(keys[..i], FindingOf(g, pairs))
      invariant affectedTriples == FlatMap(keys[..i], TriplesOf(g, pairs, verbose))
    {
      var id := keys[i];
      CollectStep(keys, i, FindingOf(g, pairs));
      FlatMapStep(keys, i, TriplesOf(g, pairs, verbose));
      var issue, triples := CheckGroup(g, id, groups[id], dn, verbose);
      if issue.Some? {
        issues := issues + [issue.value];
      }
      affectedTriples := affectedTriples + triples;
    }
    assert keys[..|keys|] == keys;
  }

  /** `check_duplicate_device_ids`: group every device-instance triple by its value, then report
      each value whose subjects are spread over more than one place; at most one finding per
      value, and `verbose` only adds triples. */
  method CheckDuplicateDeviceIds(g: Graph, verbose: bool) returns (issues: seq<Issue>, affectedTriples: seq<Triple>)
    ensures issues == Collect(Keys(InstancePairs(g)), FindingOf(g, InstancePairs(g)))
    ensures affectedTriples == FlatMap(Keys(InstancePairs(g)), TriplesOf(g, InstancePairs(g), verbose))
    ensures forall i, j :: 0 <= i < j < |issues| ==> issues[i].deviceId != issues[j].deviceId
  {
    var pairs := InstancePairs(g);
    var keys, groups := GroupBy(pairs);
    var dn := DeviceNetworkMap(g, keys, groups);
    issues, affectedTriples := ReportGroups(g, pairs, keys, groups, dn, verbose);
    FindingNamesId(g, pairs, keys);
    CollectDistinctKeys(keys, FindingOf(g, pairs), DeviceIdOf);
  }
}
