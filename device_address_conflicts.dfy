/** graph_checks/device_address_conflicts.py: devices that share an address on the same network or
    on the same subnet. */
module DeviceAddressConflicts {
  import opened Wrappers
  import opened Seqs
  import opened Bacnet
  import opened Grouping

  const AddressConflict: string := "device-address-conflicts"
  const NetworkScope: string := "network"
  const SubnetScope: string := "subnet"

  /** What the first pass records for a device on each of its networks and subnets. */
  datatype DeviceInfo = DeviceInfo(device: Node, deviceName: string, deviceInstance: string, address: string)

  /** A finding (the source stores its issue type under the key "type"). */
  datatype Issue = Issue(
    issueType: string,
    severity: Severity,
    network: Node,
    networkType: string,
    address: string,
    deviceCount: nat,
    devices: seq<DeviceInfo>)

  // ---------------------------------------------------------------------------------------------
  // Specification

  /** The device's first address exists and is not empty. */
  function Addressed(g: Graph): Node -> bool {
    d => First(g, d, Address).Some? && First(g, d, Address).value != ""
  }

  function InfoOf(g: Graph): Node -> DeviceInfo {
    d => DeviceInfo(d, DeviceLabel(g, d), FirstOr(g, d, DeviceInstance, "Unknown"), FirstOr(g, d, Address, ""))
  }

  /** The scopes a device is in through `p` (device-on-network or device-on-subnet). */
  function ScopesOf(g: Graph, p: Node): Node -> seq<Node> {
    d => Objects(g, d, p)
  }

  /** The devices the first pass does not skip, in graph order. */
  function Candidates(g: Graph): seq<Node> {
    Filter(OfType(g, DeviceClass), Addressed(g))
  }

  /** (scope, device info) for every scope of every addressed device, in the order the first pass
      appends them to `network_devices` (p = device-on-network) or `subnet_devices`
      (p = device-on-subnet). */
  function ScopePairs(g: Graph, p: Node): seq<(Node, DeviceInfo)> {
    FlatMap(Candidates(g), PairsWith(ScopesOf(g, p), InfoOf(g)))
  }

  /** A scope's list holds exactly the infos of the Device-typed subjects in that scope whose first
      address is non-empty, and records that address; devices without an address are nowhere. */
  lemma ScopePairsSpec(g: Graph, p: Node, scope: Node, info: DeviceInfo)
    ensures info in Values(ScopePairs(g, p), scope) <==>
      && Triple(info.device, RdfType, DeviceClass) in g
      && Triple(info.device, p, scope) in g
      && First(g, info.device, Address) == Some(info.address) && info.address != ""
      && info == InfoOf(g)(info.device)
  {
    var cs := Candidates(g);
    FilterSpec(OfType(g, DeviceClass), Addressed(g));
    GroupedSpec(cs, ScopesOf(g, p), InfoOf(g), scope, info);
  }

  function AddressPair(i: DeviceInfo): (string, DeviceInfo) {
    (i.address, i)
  }

  /** The pairs one scope's `address_map` is filled from. */
  function AddressPairs(infos: seq<DeviceInfo>): seq<(string, DeviceInfo)> {
    Map(infos, AddressPair)
  }

  /** The finding for one address within one scope's devices. */
  function Conflict(scope: Node, kind: string, infos: seq<DeviceInfo>, address: string): Option<Issue> {
    var ds := Values(AddressPairs(infos), address);
    if |ds| > 1 then Some(Issue(AddressConflict, Critical, scope, kind, address, |ds|, ds)) else None
  }

  /** A finding needs two or more devices of the scope with that address; it lists exactly those
      devices and counts them, and is always critical. */
  lemma ConflictSpec(scope: Node, kind: string, infos: seq<DeviceInfo>, address: string)
    ensures var r := Conflict(scope, kind, infos, address);
      && (r.Some? <==> |Values(AddressPairs(infos), address)| > 1)
      && (r.Some? ==> r.value.issueType == AddressConflict && r.value.severity == Critical)
      && (r.Some? ==> r.value.network == scope && r.value.networkType == kind && r.value.address == address)
      && (r.Some? ==> r.value.deviceCount == |r.value.devices| >= 2)
      && (r.Some? ==> forall x :: x in r.value.devices <==> x in infos && x.address == address)
  {
    forall x ensures x in Values(AddressPairs(infos), address) <==> x in infos && x.address == address {
      MapMember(infos, AddressPair, (address, x));
    }
  }

  function ConflictOf(scope: Node, kind: string, infos: seq<DeviceInfo>): string -> Option<Issue> {
    a => Conflict(scope, kind, infos, a)
  }

  /** The findings of one scope, in `address_map` key order. */
  function ScopeConflicts(scope: Node, kind: string, infos: seq<DeviceInfo>): seq<Issue> {
    Collect(Keys(AddressPairs(infos)), ConflictOf(scope, kind, infos))
  }

  function ScopeConflictsOf(pairs: seq<(Node, DeviceInfo)>, kind: string): Node -> seq<Issue> {
    s => ScopeConflicts(s, kind, Values(pairs, s))
  }

  /** Every network-scope finding, then every subnet-scope finding. */
  function Conflicts(g: Graph): seq<Issue> {
    FlatMap(Keys(ScopePairs(g, DeviceOnNetwork)), ScopeConflictsOf(ScopePairs(g, DeviceOnNetwork), NetworkScope)) +
    FlatMap(Keys(ScopePairs(g, DeviceOnSubnet)), ScopeConflictsOf(ScopePairs(g, DeviceOnSubnet), SubnetScope))
  }

  function DeviceOf(i: DeviceInfo): Node {
    i.device
  }

  /** The affected nodes a finding contributes: each of its devices, in order. */
  function IssueDevices(i: Issue): seq<Node> {
    Map(i.devices, DeviceOf)
  }

  /** A finding of one scope is tagged with the pass's kind and that scope, and lists only devices
      of the scope with the finding's address. */
  lemma ScopeMember(scope: Node, kind: string, infos: seq<DeviceInfo>, i: Issue)
    requires i in ScopeConflicts(scope, kind, infos)
    ensures i.networkType == kind && i.network == scope
    ensures i.deviceCount == |i.devices| >= 2
    ensures forall x | x in i.devices :: x in infos && x.address == i.address
  {
    CollectMember(Keys(AddressPairs(infos)), ConflictOf(scope, kind, infos), i);
    var a :| a in Keys(AddressPairs(infos)) && Conflict(scope, kind, infos, a) == Some(i);
    ConflictSpec(scope, kind, infos, a);
  }

  /** A finding of one pass is about one of its scopes. */
  lemma PassMember(pairs: seq<(Node, DeviceInfo)>, kind: string, i: Issue)
    requires i in FlatMap(Keys(pairs), ScopeConflictsOf(pairs, kind))
    ensures i.networkType == kind && i.network in Keys(pairs)
    ensures i.deviceCount == |i.devices| >= 2
    ensures forall x | x in i.devices :: x in Values(pairs, i.network) && x.address == i.address
  {
    FlatMapMember(Keys(pairs), ScopeConflictsOf(pairs, kind), i);
    var s :| s in Keys(pairs) && i in ScopeConflictsOf(pairs, kind)(s);
    ScopeMember(s, kind, Values(pairs, s), i);
  }

  /** Every finding of one pass carries that pass's kind. */
  lemma PassKinds(pairs: seq<(Node, DeviceInfo)>, kind: string)
    ensures forall i | i in FlatMap(Keys(pairs), ScopeConflictsOf(pairs, kind)) :: i.networkType == kind
  {
    forall i | i in FlatMap(Keys(pairs), ScopeConflictsOf(pairs, kind)) ensures i.networkType == kind {
      PassMember(pairs, kind, i);
    }
  }

  /** Every reported device really is in the reported scope with the reported address, so the same
      address on two different networks or subnets is never a conflict. */
  lemma ConflictMembers(g: Graph, i: Issue)
    requires i in Conflicts(g)
    ensures i.networkType == NetworkScope || i.networkType == SubnetScope
    ensures i.deviceCount == |i.devices| >= 2
    ensures forall x | x in i.devices ::
      && Triple(x.device, if i.networkType == NetworkScope then DeviceOnNetwork else DeviceOnSubnet, i.network) in g
      && First(g, x.device, Address) == Some(i.address)
  {
    var p := if i in FlatMap(Keys(ScopePairs(g, DeviceOnNetwork)), ScopeConflictsOf(ScopePairs(g, DeviceOnNetwork), NetworkScope))
      then DeviceOnNetwork else DeviceOnSubnet;
    var kind := if p == DeviceOnNetwork then NetworkScope else SubnetScope;
    PassMember(ScopePairs(g, p), kind, i);
    forall x | x in i.devices
      ensures Triple(x.device, p, i.network) in g && First(g, x.device, Address) == Some(i.address)
    {
      ScopePairsSpec(g, p, i.network, x);
    }
  }

  /** Two different devices of a scope with the same address give a finding listing both. */
  lemma ScopeConflictFound(scope: Node, kind: string, infos: seq<DeviceInfo>, a: string, x1: DeviceInfo, x2: DeviceInfo)
    requires x1 in infos && x2 in infos && x1 != x2 && x1.address == a && x2.address == a
    ensures exists i :: i in ScopeConflicts(scope, kind, infos) && i.address == a && x1 in i.devices && x2 in i.devices
  {
    ConflictSpec(scope, kind, infos, a);
    var ds := Values(AddressPairs(infos), a);
    MapMember(infos, AddressPair, (a, x1));
    MapMember(infos, AddressPair, (a, x2));
    TwoMembers(ds, x1, x2);
    var i := Conflict(scope, kind, infos, a).value;
    KeysValues(AddressPairs(infos), a);
    CollectMember(Keys(AddressPairs(infos)), ConflictOf(scope, kind, infos), i);
  }

  /** The kind a pass tags its findings with: "network" for device-on-network, "subnet" for
      device-on-subnet. */
  function KindOf(p: Node): string {
    if p == DeviceOnNetwork then NetworkScope else SubnetScope
  }

  /** Two different addressed devices with the same address on the same network (p =
      device-on-network) or on the same subnet (p = device-on-subnet) give a finding for that scope
      and address, of that kind, that lists both. */
  lemma SharedAddressReported(g: Graph, p: Node, n: Node, a: string, d1: Node, d2: Node)
    requires p == DeviceOnNetwork || p == DeviceOnSubnet
    requires d1 != d2 && a != ""
    requires Triple(d1, RdfType, DeviceClass) in g && Triple(d2, RdfType, DeviceClass) in g
    requires Triple(d1, p, n) in g && Triple(d2, p, n) in g
    requires First(g, d1, Address) == Some(a) && First(g, d2, Address) == Some(a)
    ensures exists i :: && i in Conflicts(g) && i.network == n && i.networkType == KindOf(p) && i.address == a
                        && InfoOf(g)(d1) in i.devices && InfoOf(g)(d2) in i.devices
  {
    var pairs := ScopePairs(g, p);
    var kind := KindOf(p);
    var x1, x2 := InfoOf(g)(d1), InfoOf(g)(d2);
    ScopePairsSpec(g, p, n, x1);
    ScopePairsSpec(g, p, n, x2);
    KeysValues(pairs, n);
    ScopeConflictFound(n, kind, Values(pairs, n), a, x1, x2);
    var i :| i in ScopeConflicts(n, kind, Values(pairs, n)) && i.address == a && x1 in i.devices && x2 in i.devices;
    ScopeMember(n, kind, Values(pairs, n), i);
    FlatMapMember(Keys(pairs), ScopeConflictsOf(pairs, kind), i);
    assert i in FlatMap(Keys(pairs), ScopeConflictsOf(pairs, kind));
    assert i in Conflicts(g);
  }

  // ---------------------------------------------------------------------------------------------
  // The analyzer

  /** The first pass: every addressed Device appended, with its info, to the list of each of its
      networks and of each of its subnets. */
  method CollectDevices(g: Graph)
    returns (netKeys: seq<Node>, netGroups: map<Node, seq<DeviceInfo>>,
             subKeys: seq<Node>, subGroups: map<Node, seq<DeviceInfo>>)
    ensures Grouped(ScopePairs(g, DeviceOnNetwork), netKeys, netGroups)
    ensures Grouped(ScopePairs(g, DeviceOnSubnet), subKeys, subGroups)
  {
    var devices := OfType(g, DeviceClass);
    var onNetwork := PairsWith(ScopesOf(g, DeviceOnNetwork), InfoOf(g));
    var onSubnet := PairsWith(ScopesOf(g, DeviceOnSubnet), InfoOf(g));
    netKeys, netGroups, subKeys, subGroups := [], map[], [], map[];
    ghost var kept: seq<Node> := [];
    for i := 0 to |devices|
      invariant kept == Filter(devices[..i], Addressed(g))
      invariant Grouped(FlatMap(kept, onNetwork), netKeys, netGroups)
      invariant Grouped(FlatMap(kept, onSubnet), subKeys, subGroups)
    {
      var device := devices[i];
      FilterStep(devices, i, Addressed(g));
      var address := First(g, device, Address);
      if address.None? || address.value == "" {
        continue;
      }
      FlatMapSnoc(kept, device, onNetwork);
      FlatMapSnoc(kept, device, onSubnet);
      netKeys, netGroups := GroupMore(FlatMap(kept, onNetwork), onNetwork(device), netKeys, netGroups);
      subKeys, subGroups := GroupMore(FlatMap(kept, onSubnet), onSubnet(device), subKeys, subGroups);
      kept := kept + [device];
    }
    assert devices[..|devices|] == devices;
  }

  /** The loop that appends each conflicting device to the affected list. */
  method DevicesOf(conflicting: seq<DeviceInfo>) returns (nodes: seq<Node>)
    ensures nodes == Map(conflicting, DeviceOf)
  {
    nodes := [];
    for m := 0 to |conflicting|
      invariant nodes == Map(conflicting[..m], DeviceOf)
    {
      MapStep(conflicting, m, DeviceOf);
      nodes := nodes + [conflicting[m].device];
    }
    assert conflicting[..|conflicting|] == conflicting;
  }

  /** One scope: group its devices by address, then report every address held by two or more, each
      followed by its devices in the affected list. */
  method ReportScope(scope: Node, kind: string, infos: seq<DeviceInfo>)
    returns (issues: seq<Issue>, affected: seq<Node>)
    ensures issues == ScopeConflicts(scope, kind, infos)
    ensures affected == FlatMap(issues, IssueDevices)
  {
    var addresses, addressMap := GroupBy(AddressPairs(infos));
    issues, affected := [], [];
    for j := 0 to |addresses|
      invariant issues == Collect(addresses[..j], ConflictOf(scope, kind, infos))
      invariant affected == FlatMap(issues, IssueDevices)
    {
      var address := addresses[j];
      CollectStep(addresses, j, ConflictOf(scope, kind, infos));
      var conflicting := addressMap[address];
      if |conflicting| > 1 {
        var issue := Issue(AddressConflict, Critical, scope, kind, address, |conflicting|, conflicting);
        FlatMapSnoc(issues, issue, IssueDevices);
        issues := issues + [issue];
        var nodes := DevicesOf(conflicting);
        affected := affected + nodes;
      }
    }
    assert addresses[..|addresses|] == addresses;
  }

  /** The second or third pass: every scope of one dictionary, in key order. */
  method ReportPass(ghost pairs: seq<(Node, DeviceInfo)>, keys: seq<Node>, groups: map<Node, seq<DeviceInfo>>, kind: string)
    returns (issues: seq<Issue>, affected: seq<Node>)
    requires forall k | k in keys :: k in groups && groups[k] == Values(pairs, k)
    ensures issues == FlatMap(keys, ScopeConflictsOf(pairs, kind))
    ensures affected == FlatMap(issues, IssueDevices)
  {
    issues, affected := [], [];
    for i := 0 to |keys|
      invariant issues == FlatMap(keys[..i], ScopeConflictsOf(pairs, kind))
      invariant affected == FlatMap(issues, IssueDevices)
    {
      FlatMapStep(keys, i, ScopeConflictsOf(pairs, kind));
      var found, nodes := ReportScope(keys[i], kind, groups[keys[i]]);
      FlatMapAppend(issues, found, IssueDevices);
      issues := issues + found;
      affected := affected + nodes;
    }
    assert keys[..|keys|] == keys;
  }

  lemma SubnetsLast(a: seq<Issue>, b: seq<Issue>)
    requires forall i | i in a :: i.networkType == NetworkScope
    requires forall i | i in b :: i.networkType == SubnetScope
    ensures var s := a + b; forall i, j :: 0 <= i < j < |s| && s[i].networkType == SubnetScope ==> s[j].networkType == SubnetScope
  {
    var s := a + b;
    forall i, j | 0 <= i < j < |s| && s[i].networkType == SubnetScope ensures s[j].networkType == SubnetScope {
      assert forall k | 0 <= k < |a| :: s[k] == a[k] && a[k] in a;
      assert s[j] == b[j - |a|];
    }
  }

  /** `check_device_address_conflicts`: the network-scope findings followed by the subnet-scope
      findings, with every device of every finding in the affected list. */
  method CheckDeviceAddressConflicts(g: Graph) returns (issues: seq<Issue>, affectedNodes: seq<Node>)
    ensures issues == Conflicts(g)
    ensures affectedNodes == FlatMap(issues, IssueDevices)
    ensures forall i, j :: 0 <= i < j < |issues| && issues[i].networkType == SubnetScope ==> issues[j].networkType == SubnetScope
  {
    var netKeys, netGroups, subKeys, subGroups := CollectDevices(g);
    var netIssues, netNodes := ReportPass(ScopePairs(g, DeviceOnNetwork), netKeys, netGroups, NetworkScope);
    var subIssues, subNodes := ReportPass(ScopePairs(g, DeviceOnSubnet), subKeys, subGroups, SubnetScope);
    FlatMapAppend(netIssues, subIssues, IssueDevices);
    issues := netIssues + subIssues;
    affectedNodes := netNodes + subNodes;
    PassKinds(ScopePairs(g, DeviceOnNetwork), NetworkScope);
    PassKinds(ScopePairs(g, DeviceOnSubnet), SubnetScope);
    SubnetsLast(netIssues, subIssues);
  }
}
