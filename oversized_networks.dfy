/** graph_checks/oversized_networks.py: networks holding more devices than the warning or critical
    threshold of their detected network type. */
module OversizedNetworks {
  import opened Wrappers
  import opened Seqs
  import opened Text
  import opened Bacnet
  import opened Dicts
  import UnreachableNetworks
  import Ipv4

  // ---------------------------------------------------------------------------------------------
  // Counting devices per network

  /** The networks: every BACnetNetwork-typed subject. */
  function Networks(g: Graph): set<Node> {
    Elems(OfType(g, NetworkClass))
  }

  /** What the first loop adds for one triple: a device-on-network triple whose object is a network
      adds its subject under that network. */
  function DirectOf(networks: set<Node>): Triple -> seq<(Node, Node)> {
    (t: Triple) => if t.p == DeviceOnNetwork && t.o in networks then [(t.o, t.s)] else []
  }

  /** What the innermost loop adds for device `d` and one network `n` its subnet belongs to. */
  function UnderOf(networks: set<Node>, d: Node): Node -> seq<(Node, Node)> {
    (n: Node) => if n in networks then [(n, d)] else []
  }

  /** What the second loop adds for one triple: a device-on-subnet triple adds its subject under
      every network its subnet is subnet-of-network of, in graph order. */
  function ViaSubnetOf(g: Graph, networks: set<Node>): Triple -> seq<(Node, Node)> {
    (t: Triple) => if t.p == DeviceOnSubnet then FlatMap(Objects(g, t.o, SubnetOfNetwork), UnderOf(networks, t.s)) else []
  }

  /** Every `network_device_counts[network].add(device)`, in order. */
  function Additions(g: Graph): seq<(Node, Node)> {
    FlatMap(g, DirectOf(Networks(g))) + FlatMap(g, ViaSubnetOf(g, Networks(g)))
  }

  /** `network_device_counts`: the networks in the order they first get a device, each with its
      devices in the order they were first added. */
  function DeviceCounts(g: Graph): ListDict {
    AddAll(Empty, Additions(g))
  }

  /** `d` is on network `n`: directly, or through a subnet that is subnet-of-network `n`. */
  ghost predicate OnNetwork(g: Graph, d: Node, n: Node) {
    Triple(d, DeviceOnNetwork, n) in g || exists s :: Triple(d, DeviceOnSubnet, s) in g && Triple(s, SubnetOfNetwork, n) in g
  }

  /** The devices on network `n`. */
  ghost function DeviceSet(g: Graph, n: Node): set<Node> {
    set t | t in g && (t.p == DeviceOnNetwork || t.p == DeviceOnSubnet) && OnNetwork(g, t.s, n) :: t.s
  }

  /** A pair is added iff its network is a network and its device is on it. */
  lemma AdditionsMember(g: Graph, n: Node, d: Node)
    ensures (n, d) in Additions(g) <==> n in Networks(g) && OnNetwork(g, d, n)
  {
    var networks := Networks(g);
    FlatMapMember(g, DirectOf(networks), (n, d));
    FlatMapMember(g, ViaSubnetOf(g, networks), (n, d));
    if (n, d) in FlatMap(g, ViaSubnetOf(g, networks)) {
      var t :| t in g && (n, d) in ViaSubnetOf(g, networks)(t);
      FlatMapMember(Objects(g, t.o, SubnetOfNetwork), UnderOf(networks, t.s), (n, d));
      assert Triple(d, DeviceOnSubnet, t.o) == t;
    }
    if n in networks && !(Triple(d, DeviceOnNetwork, n) in g) && OnNetwork(g, d, n) {
      var s :| Triple(d, DeviceOnSubnet, s) in g && Triple(s, SubnetOfNetwork, n) in g;
      var t := Triple(d, DeviceOnSubnet, s);
      FlatMapMember(Objects(g, s, SubnetOfNetwork), UnderOf(networks, d), (n, d));
      assert (n, d) in UnderOf(networks, d)(n);
      assert (n, d) in ViaSubnetOf(g, networks)(t);
    }
    if n in networks && Triple(d, DeviceOnNetwork, n) in g {
      assert (n, d) in DirectOf(networks)(Triple(d, DeviceOnNetwork, n));
    }
  }

  /** The counts list, under each network, exactly the devices on it, each once; the networks with a
      device are exactly the keys; the count of a network is the number of devices on it. */
  lemma DeviceCountsSpec(g: Graph, n: Node)
    ensures Valid(DeviceCounts(g))
    ensures forall d :: d in Get(DeviceCounts(g), n) <==> n in Networks(g) && OnNetwork(g, d, n)
    ensures n in DeviceCounts(g).lists <==> n in Networks(g) && DeviceSet(g, n) != {}
    ensures |Get(DeviceCounts(g), n)| == |DeviceSet(g, n)| || n !in Networks(g)
  {
    var counts := DeviceCounts(g);
    AddAllValid(Empty, Additions(g));
    CountsMember(g, n);
    DeviceSetMember(g, n);
    CountsKey(g, n);
    if n in Networks(g) {
      assert Elems(Get(counts, n)) == DeviceSet(g, n);
      DistinctElems(Get(counts, n));
    }
  }

  /** The devices listed under `n` are those on it, when it is a network. */
  lemma CountsMember(g: Graph, n: Node)
    ensures forall d :: d in Get(DeviceCounts(g), n) <==> n in Networks(g) && OnNetwork(g, d, n)
  {
    forall d ensures d in Get(DeviceCounts(g), n) <==> n in Networks(g) && OnNetwork(g, d, n) {
      AddAllMember(Empty, Additions(g), n, d);
      AdditionsMember(g, n, d);
    }
  }

  /** The devices on `n` are the subjects of the triples that put them on it. */
  lemma DeviceSetMember(g: Graph, n: Node)
    ensures forall d :: d in DeviceSet(g, n) <==> OnNetwork(g, d, n)
  {
    forall d ensures d in DeviceSet(g, n) <==> OnNetwork(g, d, n) {
      if OnNetwork(g, d, n) {
        if Triple(d, DeviceOnNetwork, n) in g {
          assert Triple(d, DeviceOnNetwork, n).s == d;
        } else {
          var s :| Triple(d, DeviceOnSubnet, s) in g && Triple(s, SubnetOfNetwork, n) in g;
          assert Triple(d, DeviceOnSubnet, s).s == d;
        }
      }
    }
  }

  /** The counts have a key `n` exactly when `n` is a network with a device on it. */
  lemma CountsKey(g: Graph, n: Node)
    ensures n in DeviceCounts(g).lists <==> n in Networks(g) && DeviceSet(g, n) != {}
  {
    var counts := DeviceCounts(g);
    AddAllMember(Empty, Additions(g), n, "");
    if n in counts.lists {
      var v :| (n, v) in Additions(g);
      AdditionsMember(g, n, v);
      assert v in DeviceSet(g, n);
    }
    if n in Networks(g) && DeviceSet(g, n) != {} {
      var d :| d in DeviceSet(g, n);
      AdditionsMember(g, n, d);
    }
  }

  // ---------------------------------------------------------------------------------------------
  // Network type detection

  /** The keyword test of one network-type value, lower-cased. */
  function TypeFromProperty(value: string): Option<string> {
    var s := Lower(value);
    if Contains(s, "mstp") || Contains(s, "master-slave") || Contains(s, "token-passing") then Some("mstp")
    else if Contains(s, "ip") || Contains(s, "ethernet") || Contains(s, "bacnet/ip") then Some("ip")
    else if Contains(s, "arcnet") then Some("arcnet")
    else if Contains(s, "ptp") || Contains(s, "point-to-point") then Some("ptp")
    else None
  }

  /** The keyword test of one label, lower-cased. */
  function TypeFromLabel(value: string): Option<string> {
    var s := Lower(value);
    if Contains(s, "mstp") || Contains(s, "master-slave") || Contains(s, "token") then Some("mstp")
    else if Contains(s, "ip") || Contains(s, "ethernet") || Contains(s, "tcp") then Some("ip")
    else if Contains(s, "arcnet") then Some("arcnet")
    else if Contains(s, "ptp") || Contains(s, "point-to-point") then Some("ptp")
    else None
  }

  /** The keyword test of the network's URI, lower-cased. */
  function TypeFromUri(uri: string): Option<string> {
    var s := Lower(uri);
    if Contains(s, "mstp") || Contains(s, "master-slave") then Some("mstp")
    else if Contains(s, "ip") || Contains(s, "ethernet") then Some("ip")
    else if Contains(s, "arcnet") then Some("arcnet")
    else if Contains(s, "ptp") then Some("ptp")
    else None
  }

  /** The result of the first value the keyword test `f` recognises; values it does not recognise
      are passed over. */
  function FirstMatch(values: seq<string>, f: string -> Option<string>): Option<string> {
    if values == [] then None
    else if f(values[0]).Some? then f(values[0])
    else FirstMatch(values[1..], f)
  }

  /** Nothing matches iff no value is recognised; otherwise the result is that of a recognised value
      before which no value is recognised. */
  lemma {:induction false} FirstMatchSpec(values: seq<string>, f: string -> Option<string>)
    ensures FirstMatch(values, f).None? <==> forall v | v in values :: f(v).None?
    ensures FirstMatch(values, f).Some? ==>
      exists i | 0 <= i < |values| :: f(values[i]) == FirstMatch(values, f) && forall j | 0 <= j < i :: f(values[j]).None?
  {
    if values != [] {
      FirstMatchSpec(values[1..], f);
      assert forall v | v in values :: v == values[0] || v in values[1..];
      if f(values[0]).None? && FirstMatch(values, f).Some? {
        var i :| 0 <= i < |values[1..]| && f(values[1..][i]) == FirstMatch(values, f)
                 && forall j | 0 <= j < i :: f(values[1..][j]).None?;
        assert f(values[i + 1]) == FirstMatch(values, f);
        forall j | 0 <= j < i + 1 ensures f(values[j]).None? {
          if j > 0 {
            assert values[j] == values[1..][j - 1];
          }
        }
      }
    }
  }

  /** Every piece parses with `int()`. */
  predicate AllInts(parts: seq<string>) {
    forall p | p in parts :: ParseInt(p).Some?
  }

  /** The IP-like test of the address sampling: the address holds a '.' and a digit, and either
      its '.'-pieces are four integers, or (when there are not four pieces) it holds a ':' and the
      '.'-pieces before the first ':' are four integers. The 0..255 comparison the code evaluates is
      thrown away, so any integers pass. */
  predicate IsIpLike(addr: string) {
    && '.' in addr && (exists i | 0 <= i < |addr| :: IsDigit(addr[i]))
    && var parts := Split(addr, '.');
       if |parts| == 4 then AllInts(parts)
       else ':' in addr && |Split(BeforeFirst(addr, ':'), '.')| == 4 && AllInts(Split(BeforeFirst(addr, ':'), '.'))
  }

  /** The numeric test, reached only by addresses that are not IP-like: all digits, from 1 to 127. */
  predicate IsNumericAddress(addr: string) {
    !IsIpLike(addr) && IsDigits(addr) && 1 <= DigitsValue(addr) <= 127
  }

  /** The first ten addresses (all of them when there are fewer). */
  function Sample(addresses: seq<string>): (r: seq<string>)
    ensures |r| <= 10 && r <= addresses
    ensures |addresses| <= 10 ==> r == addresses
  {
    if |addresses| <= 10 then addresses else addresses[..10]
  }

  /** The address vote: "ip" when IP-like addresses outnumber numeric ones in the sample, "mstp"
      when there is a numeric one and at least as many numeric as IP-like, nothing otherwise. */
  function TypeFromAddresses(addresses: seq<string>): Option<string> {
    if addresses == [] then None
    else
      var ip := CountIf(Sample(addresses), IsIpLike);
      var numeric := CountIf(Sample(addresses), IsNumericAddress);
      if ip > numeric then Some("ip")
      else if numeric > 0 && numeric >= ip then Some("mstp")
      else None
  }

  /** The addresses of the devices, device by device, each device's in graph order. */
  function AddressesOf(g: Graph, devices: seq<Node>): seq<string> {
    FlatMap(devices, ObjectsOf(g, Address))
  }

  /** `_detect_network_type`: the first recognised network-type value, else the first recognised
      label, else the URI, else the address vote, else "other". */
  function DetectType(g: Graph, n: Node, devices: seq<Node>): string {
    match FirstMatch(Objects(g, n, NetworkType), TypeFromProperty)
    case Some(t) => t
    case None =>
      match FirstMatch(Objects(g, n, RdfsLabel), TypeFromLabel)
      case Some(t) => t
      case None =>
        match TypeFromUri(n)
        case Some(t) => t
        case None =>
          match TypeFromAddresses(AddressesOf(g, devices))
          case Some(t) => t
          case None => "other"
  }

  /** The detected type is one of mstp, ip, arcnet, ptp and other: never "ethernet". */
  lemma DetectTypeRange(g: Graph, n: Node, devices: seq<Node>)
    ensures DetectType(g, n, devices) in {"mstp", "ip", "arcnet", "ptp", "other"}
    ensures DetectType(g, n, devices) != "ethernet"
  {
    var types, labels := Objects(g, n, NetworkType), Objects(g, n, RdfsLabel);
    FirstMatchSpec(types, TypeFromProperty);
    FirstMatchSpec(labels, TypeFromLabel);
  }

  /** A recognised network-type value decides the type whatever the label, URI and addresses say;
      the labels decide only when no network-type value is recognised. */
  lemma DetectTypeOrder(g: Graph, n: Node, devices: seq<Node>, devices': seq<Node>)
    ensures FirstMatch(Objects(g, n, NetworkType), TypeFromProperty).Some? ==>
      DetectType(g, n, devices) == DetectType(g, n, devices')
    ensures (forall v | v in Objects(g, n, NetworkType) :: TypeFromProperty(v).None?) &&
            FirstMatch(Objects(g, n, RdfsLabel), TypeFromLabel).Some? ==>
      DetectType(g, n, devices) == FirstMatch(Objects(g, n, RdfsLabel), TypeFromLabel).value
  {
    FirstMatchSpec(Objects(g, n, NetworkType), TypeFromProperty);
  }

  /** Only the first ten addresses vote. */
  lemma SampleOfTen(a: seq<string>, b: seq<string>)
    requires |a| >= 10 && |b| >= 10 && a[..10] == b[..10]
    ensures TypeFromAddresses(a) == TypeFromAddresses(b)
  {
    if |a| == 10 { assert a == a[..10]; }
    if |b| == 10 { assert b == b[..10]; }
    assert Sample(a) == Sample(b);
  }

  /** The range comparison is dropped: "999.999.999.999" counts as IP-like although it is no IPv4
      address. */
  lemma RangeCheckDropped()
    ensures IsIpLike("999.999.999.999")
    ensures Ipv4.ParseAddress("999.999.999.999").None?
  {
    var a := "999.999.999.999";
    assert a == "999" + "." + "999" + "." + "999" + "." + "999";
    Ipv4.SplitFour("999", "999", "999", "999");
    NinesIpLike(a);
    NinesNoAddress(a);
  }

  /** Four pieces of "999" pass the IP-like test. */
  lemma NinesIpLike(a: string)
    requires a == "999.999.999.999" && Split(a, '.') == ["999", "999", "999", "999"]
    ensures IsIpLike(a)
  {
    assert a[0] == '9' && IsDigit(a[0]);
    assert a[3] == '.';
    ParseIntDigits("999");
  }

  /** Four pieces of "999" are no IPv4 address: 999 is no octet. */
  lemma NinesNoAddress(a: string)
    requires a == "999.999.999.999" && Split(a, '.') == ["999", "999", "999", "999"]
    ensures Ipv4.ParseAddress(a).None?
  {
    assert "999"[..2] == "99" && "99"[..1] == "9";
    assert DigitsValue("999") == 999;
  }

  // ---------------------------------------------------------------------------------------------
  // Thresholds and findings

  /** `_get_thresholds_for_type`'s table: (warning, critical) per network type. */
  const ThresholdTable: map<string, (nat, nat)> :=
    map["mstp" := (15, 30), "ip" := (50, 100), "ethernet" := (50, 100), "arcnet" := (15, 25),
        "ptp" := (2, 3), "other" := (25, 50)]

  /** The (warning, critical) pair of a type; an unknown type gets the "other" pair. Every pair
      warns before it turns critical, and no pair warns below two devices. */
  function Thresholds(networkType: string): (r: (nat, nat))
    ensures 2 <= r.0 < r.1
    ensures networkType !in ThresholdTable ==> r == (25, 50)
  {
    if networkType in ThresholdTable then ThresholdTable[networkType] else ThresholdTable["other"]
  }

  datatype Issue = Issue(
    issueType: string,
    severity: Severity,
    network: Node,
    networkName: string,
    networkType: string,
    deviceCount: nat,
    threshold: nat,
    warningThreshold: nat,
    criticalThreshold: nat,
    performanceImpact: string)

  /** The classification of one network with `count` devices of type `networkType`: critical from
      the critical threshold on, a warning from the warning threshold on, nothing below it. The
      finding's threshold is the one that was crossed, and the finding carries both thresholds. */
  function Assess(n: Node, name: string, networkType: string, count: nat): (r: Option<Issue>)
    ensures r.Some? <==> count >= Thresholds(networkType).0
    ensures r.Some? ==>
      && r.value.network == n && r.value.networkName == name && r.value.networkType == networkType
      && r.value.deviceCount == count
      && (r.value.warningThreshold, r.value.criticalThreshold) == Thresholds(networkType)
      && r.value.warningThreshold <= r.value.threshold <= count
      && (r.value.severity == Critical <==> count >= Thresholds(networkType).1)
      && (r.value.severity == Critical || r.value.severity == Warning)
      && (r.value.severity == Critical <==> r.value.issueType == "oversized-networks-critical")
      && (r.value.severity == Critical <==> r.value.performanceImpact == "severe")
  {
    var (warning, critical) := Thresholds(networkType);
    if count >= critical then
      Some(Issue("oversized-networks-critical", Critical, n, name, networkType, count, critical, warning, critical, "severe"))
    else if count >= warning then
      Some(Issue("oversized-networks-warning", Warning, n, name, networkType, count, warning, warning, critical, "moderate"))
    else None
  }

  /** The detected type of network `n` given the counts. */
  function TypeOf(g: Graph, counts: ListDict, n: Node): string {
    DetectType(g, n, Get(counts, n))
  }

  /** The examination of one counted network. */
  function Examine(g: Graph, counts: ListDict, n: Node): Option<Issue> {
    Assess(n, UnreachableNetworks.NetworkName(g, n), TypeOf(g, counts, n), |Get(counts, n)|)
  }

  function ExamineOf(g: Graph, counts: ListDict): Node -> Option<Issue> {
    n => Examine(g, counts, n)
  }

  /** The findings of the analyzer: the counted networks in the order they first got a device. */
  function Issues(g: Graph): seq<Issue> {
    Collect(DeviceCounts(g).keys, ExamineOf(g, DeviceCounts(g)))
  }

  /** A network is reported iff it is a network whose number of devices reaches the warning
      threshold of its detected type; the finding counts exactly its devices, and is critical iff
      that number reaches the critical threshold. */
  lemma ExamineSpec(g: Graph, n: Node)
    ensures n in DeviceCounts(g).keys && Examine(g, DeviceCounts(g), n).Some? <==>
      n in Networks(g) && |DeviceSet(g, n)| >= Thresholds(TypeOf(g, DeviceCounts(g), n)).0
    ensures n in Networks(g) && Examine(g, DeviceCounts(g), n).Some? ==>
      && Examine(g, DeviceCounts(g), n).value.deviceCount == |DeviceSet(g, n)|
      && (Examine(g, DeviceCounts(g), n).value.severity == Critical <==>
          |DeviceSet(g, n)| >= Thresholds(TypeOf(g, DeviceCounts(g), n)).1)
  {
    DeviceCountsSpec(g, n);
    var counts := DeviceCounts(g);
    assert n in counts.keys <==> n in counts.lists;
    if n in Networks(g) && |DeviceSet(g, n)| >= Thresholds(TypeOf(g, counts, n)).0 {
      assert DeviceSet(g, n) != {};
    }
  }

  /** The finding of every network whose devices reach its warning threshold, in first-device order,
      each network once. */
  lemma IssuesSpec(g: Graph, issue: Issue)
    ensures issue in Issues(g) <==>
      && issue.network in Networks(g)
      && |DeviceSet(g, issue.network)| >= Thresholds(TypeOf(g, DeviceCounts(g), issue.network)).0
      && Examine(g, DeviceCounts(g), issue.network) == Some(issue)
    ensures forall i, j :: 0 <= i < j < |Issues(g)| ==> Issues(g)[i].network != Issues(g)[j].network
  {
    var counts := DeviceCounts(g);
    CollectMember(counts.keys, ExamineOf(g, counts), issue);
    ExamineSpec(g, issue.network);
    AddAllValid(Empty, Additions(g));
    CollectDistinctKeys(counts.keys, ExamineOf(g, counts), (i: Issue) => i.network);
  }

  /** A type and a count: from 15 to 49 devices an MS/TP network is flagged where an IP network is
      not. */
  lemma TypeMatters(n: Node, name: string, count: nat)
    requires 15 <= count < 50
    ensures Assess(n, name, "mstp", count).Some? && Assess(n, name, "ip", count).None?
    ensures Assess(n, name, "mstp", count).value.severity == (if count >= 30 then Critical else Warning)
  {
  }

  // ---------------------------------------------------------------------------------------------
  // The analyzer

  /** The first recognised value of `values`, scanning from the front and returning early. */
  method FirstRecognised(values: seq<string>, f: string -> Option<string>) returns (r: Option<string>)
    ensures r == FirstMatch(values, f)
  {
    for i := 0 to |values|
      invariant FirstMatch(values, f) == FirstMatch(values[i..], f)
    {
      if f(values[i]).Some? {
        return f(values[i]);
      }
      assert values[i..][1..] == values[i + 1..];
    }
    return None;
  }

  /** The address sampling: counts the IP-like and the numeric addresses among the first ten. */
  method VoteOnAddresses(addresses: seq<string>) returns (r: Option<string>)
    ensures r == TypeFromAddresses(addresses)
  {
    if addresses == [] {
      return None;
    }
    var sample := Sample(addresses);
    var ip, numeric := 0, 0;
    for i := 0 to |sample|
      invariant ip == CountIf(sample[..i], IsIpLike)
      invariant numeric == CountIf(sample[..i], IsNumericAddress)
    {
      FilterStep(sample, i, IsIpLike);
      FilterStep(sample, i, IsNumericAddress);
      var addr := sample[i];
      if IsIpLike(addr) {
        ip := ip + 1;
      } else if IsDigits(addr) && 1 <= DigitsValue(addr) <= 127 {
        numeric := numeric + 1;
      }
    }
    assert sample[..|sample|] == sample;
    if ip > numeric {
      r := Some("ip");
    } else if numeric > 0 && numeric >= ip {
      r := Some("mstp");
    } else {
      r := None;
    }
  }

  /** `_detect_network_type`. */
  method DetectNetworkType(g: Graph, n: Node, devices: seq<Node>) returns (networkType: string)
    ensures networkType == DetectType(g, n, devices)
    ensures networkType in ThresholdTable && networkType != "ethernet"
  {
    DetectTypeRange(g, n, devices);
    var fromProperty := FirstRecognised(Objects(g, n, NetworkType), TypeFromProperty);
    if fromProperty.Some? {
      return fromProperty.value;
    }
    var fromLabel := FirstRecognised(Objects(g, n, RdfsLabel), TypeFromLabel);
    if fromLabel.Some? {
      return fromLabel.value;
    }
    var fromUri := TypeFromUri(n);
    if fromUri.Some? {
      return fromUri.value;
    }
    var addresses := [];
    for i := 0 to |devices|
      invariant addresses == FlatMap(devices[..i], ObjectsOf(g, Address))
    {
      FlatMapStep(devices, i, ObjectsOf(g, Address));
      addresses := addresses + Objects(g, devices[i], Address);
    }
    assert devices[..|devices|] == devices;
    var vote := VoteOnAddresses(addresses);
    if vote.Some? {
      return vote.value;
    }
    return "other";
  }

  /** Appending one element's pairs to a run of additions. */
  lemma AdditionsDone<A>(done: seq<(Node, Node)>, s: seq<A>, j: nat, f: A -> seq<(Node, Node)>)
    requires j < |s|
    ensures done + FlatMap(s[..j + 1], f) == (done + FlatMap(s[..j], f)) + f(s[j])
  {
    FlatMapStep(s, j, f);
  }

  /** Adding a single pair. */
  lemma AddOne(d: ListDict, k: Node, v: Node)
    ensures AddAll(d, [(k, v)]) == AddTo(d, k, v)
  {
    assert [(k, v)][..0] == [];
  }

  /** The innermost loop: device `device` on subnet `subnet` is added under every network the
      subnet belongs to. */
  method AddViaSubnet(g: Graph, networks: set<Node>, counts: ListDict, ghost done: seq<(Node, Node)>,
                      device: Node, subnet: Node) returns (counts': ListDict)
    requires counts == AddAll(Empty, done)
    ensures counts' == AddAll(Empty, done + FlatMap(Objects(g, subnet, SubnetOfNetwork), UnderOf(networks, device)))
  {
    var parents := Objects(g, subnet, SubnetOfNetwork);
    counts' := counts;
    assert done + FlatMap(parents[..0], UnderOf(networks, device)) == done;
    for j := 0 to |parents|
      invariant counts' == AddAll(Empty, done + FlatMap(parents[..j], UnderOf(networks, device)))
    {
      var network := parents[j];
      AdditionsDone(done, parents, j, UnderOf(networks, device));
      AddAllAppend(Empty, done + FlatMap(parents[..j], UnderOf(networks, device)), UnderOf(networks, device)(network));
      if network in networks {
        AddOne(counts', network, device);
        counts' := AddTo(counts', network, device);
      }
    }
    assert parents[..|parents|] == parents;
  }

  /** The two counting loops: `network_device_counts`. */
  method CountDevices(g: Graph, networks: set<Node>) returns (counts: ListDict)
    requires networks == Networks(g)
    ensures counts == DeviceCounts(g)
  {
    counts := Empty;
    assert FlatMap(g[..0], DirectOf(networks)) == [];
    for i := 0 to |g|
      invariant counts == AddAll(Empty, FlatMap(g[..i], DirectOf(networks)))
    {
      var t := g[i];
      AdditionsDone([], g, i, DirectOf(networks));
      assert [] + FlatMap(g[..i], DirectOf(networks)) == FlatMap(g[..i], DirectOf(networks));
      assert [] + FlatMap(g[..i + 1], DirectOf(networks)) == FlatMap(g[..i + 1], DirectOf(networks));
      AddAllAppend(Empty, FlatMap(g[..i], DirectOf(networks)), DirectOf(networks)(t));
      if t.p == DeviceOnNetwork && t.o in networks {
        AddOne(counts, t.o, t.s);
        counts := AddTo(counts, t.o, t.s);
      }
    }
    assert g[..|g|] == g;
    ghost var direct := FlatMap(g, DirectOf(networks));
    assert direct + FlatMap(g[..0], ViaSubnetOf(g, networks)) == direct;
    for i := 0 to |g|
      invariant counts == AddAll(Empty, direct + FlatMap(g[..i], ViaSubnetOf(g, networks)))
    {
      var t := g[i];
      AdditionsDone(direct, g, i, ViaSubnetOf(g, networks));
      if t.p == DeviceOnSubnet {
        counts := AddViaSubnet(g, networks, counts, direct + FlatMap(g[..i], ViaSubnetOf(g, networks)), t.s, t.o);
      } else {
        assert ViaSubnetOf(g, networks)(t) == [];
        assert (direct + FlatMap(g[..i], ViaSubnetOf(g, networks))) + [] == direct + FlatMap(g[..i], ViaSubnetOf(g, networks));
      }
    }
    assert g[..|g|] == g;
  }

  /** Without networks nothing is counted. */
  lemma NoNetworksNoCounts(g: Graph)
    requires Networks(g) == {}
    ensures DeviceCounts(g).keys == []
  {
    AddAllValid(Empty, Additions(g));
    forall n | n in DeviceCounts(g).lists ensures false {
      DeviceCountsSpec(g, n);
    }
  }

  /** The body of the evaluation loop for one counted network. */
  method EvaluateNetwork(g: Graph, counts: ListDict, network: Node) returns (issue: Option<Issue>)
    ensures issue == Examine(g, counts, network)
  {
    var devices := Get(counts, network);
    var networkType := DetectNetworkType(g, network, devices);
    var (warning, critical) := Thresholds(networkType);
    var count := |devices|;
    var name := UnreachableNetworks.NetworkName(g, network);
    if count >= critical {
      issue := Some(Issue("oversized-networks-critical", Critical, network, name, networkType, count, critical,
                          warning, critical, "severe"));
    } else if count >= warning {
      issue := Some(Issue("oversized-networks-warning", Warning, network, name, networkType, count, warning,
                          warning, critical, "moderate"));
    } else {
      issue := None;
    }
  }

  /** The evaluation loop over the counted networks. */
  method EvaluateAll(g: Graph, counts: ListDict) returns (issues: seq<Issue>, affected: set<Node>)
    ensures issues == Collect(counts.keys, ExamineOf(g, counts))
    ensures forall n :: n in affected <==> n in counts.keys && Examine(g, counts, n).Some?
  {
    issues, affected := [], {};
    var keys := counts.keys;
    ghost var kept: seq<Node> := [];
    for i := 0 to |keys|
      invariant issues == Collect(keys[..i], ExamineOf(g, counts))
      invariant kept == Filter(keys[..i], Produces(ExamineOf(g, counts)))
      invariant forall n :: n in affected <==> n in kept
    {
      var network := keys[i];
      CollectStep(keys, i, ExamineOf(g, counts));
      FilterStep(keys, i, Produces(ExamineOf(g, counts)));
      var issue := EvaluateNetwork(g, counts, network);
      if issue.Some? {
        issues := issues + [issue.value];
        kept := kept + [network];
        affected := affected + {network};
      }
    }
    assert keys[..|keys|] == keys;
    FilterSpec(keys, Produces(ExamineOf(g, counts)));
  }

  /** The reported networks, restated through the device sets. */
  lemma ReportedNetworks(g: Graph, affected: set<Node>)
    requires forall n :: n in affected <==> n in DeviceCounts(g).keys && Examine(g, DeviceCounts(g), n).Some?
    ensures forall n :: n in affected <==>
      n in Networks(g) && |DeviceSet(g, n)| >= Thresholds(TypeOf(g, DeviceCounts(g), n)).0
  {
    forall n ensures n in affected <==> n in Networks(g) && |DeviceSet(g, n)| >= Thresholds(TypeOf(g, DeviceCounts(g), n)).0 {
      ExamineSpec(g, n);
    }
  }

  /** `check_oversized_networks`: one finding per counted network whose device count reaches the
      warning threshold of its detected type, in first-device order; the affected nodes are those
      networks. A graph without networks has no findings. */
  method CheckOversizedNetworks(g: Graph) returns (issues: seq<Issue>, affected: set<Node>)
    ensures issues == Issues(g)
    ensures forall n :: n in affected <==>
      n in Networks(g) && |DeviceSet(g, n)| >= Thresholds(TypeOf(g, DeviceCounts(g), n)).0
    ensures Networks(g) == {} ==> issues == [] && affected == {}
  {
    issues, affected := [], {};
    var networks := TypedSet(g, NetworkClass);
    if networks == {} {
      NoNetworksNoCounts(g);
      return;
    }
    var counts := CountDevices(g, networks);
    issues, affected := EvaluateAll(g, counts);
    ReportedNetworks(g, affected);
  }
}
