/** graph_checks/broadcast_domains.py: every BACnetNetwork is a broadcast domain made of its subnets,
    the devices on it or on those subnets, the BBMDs on those subnets and the /24 ranges of the
    devices' IPv4 addresses; four passes report domains that are too large, domains that need a
    BBMD and have none, and /24 ranges shared by several domains. */
module BroadcastDomains {
  import opened Wrappers
  import opened Seqs
  import opened Text
  import opened Bacnet
  import opened Ipv4
  import NetworkLoops

  // ---------------------------------------------------------------------------------------------
  // IP ranges and broadcast scope

  /** The host part of an address as `_extract_ip_ranges` cuts it: the text before the first ':'. */
  function IpPart(addr: string): string {
    BeforeFirst(addr, ':')
  }

  /** The /24 range of one address: its IP part must hold a '.' and a digit and parse as an IPv4
      address; the range is that address with its low byte cleared, written with "/24". */
  function RangeOf(addr: string): Option<string> {
    var ip := IpPart(addr);
    if '.' in ip && (exists i | 0 <= i < |ip| :: IsDigit(ip[i])) then
      match ParseAddress(ip)
      case None => None
      case Some(a) =>
        MaskedBelow(a, 24);
        Some(FormatAddress(Masked(a, 24)) + "/24")
    else None
  }

  /** Clearing host bits never makes an address larger. */
  lemma MaskedBelow(a: nat, p: nat)
    requires p <= 32
    ensures Masked(a, p) <= a
  {
    var k := Pow2(32 - p);
    assert a == a / k * k + a % k;
  }

  /** "24" is a prefix length. */
  lemma Prefix24()
    ensures ParsePrefix("24") == Some(24)
  {
    assert IsDigits("24") && DigitsValue("24") == 24;
  }

  /** The text of an address followed by "/24" reads back as the /24 network of that address. */
  lemma NetworkText(text: string, m: nat)
    requires ParseAddress(text) == Some(m) && Masked(m, 24) == m
    ensures ParseNetwork(text + "/24") == Some(Network(m, 24))
  {
    SplitSlash24(text);
    Prefix24();
    ParseNetworkOfTwo(text + "/24", text, "24", m, 24);
  }

  /** Text without '/' followed by "/24" splits at '/' into the text and "24". */
  lemma SplitSlash24(text: string)
    requires '/' !in text
    ensures Split(text + "/24", '/') == [text, "24"]
  {
    assert text + "/24" == text + ['/'] + "24";
    SplitWithout(text, '/');
    SplitWithout("24", '/');
    SplitAt(text, '/', "24");
  }

  /** A range is found only for text whose IP part is an IPv4 address, and it names the /24 network
      holding that address: read back as a network it is that address with the low byte cleared,
      prefix 24, and it contains the address. */
  lemma RangeSpec(addr: string)
    ensures RangeOf(addr).Some? ==> ParseAddress(IpPart(addr)).Some?
    ensures RangeOf(addr).Some? ==>
      var a := ParseAddress(IpPart(addr)).value;
      && ParseNetwork(RangeOf(addr).value) == Some(Network(Masked(a, 24), 24))
      && Ipv4.Contains(ParseNetwork(RangeOf(addr).value).value, a)
  {
    if RangeOf(addr).Some? {
      var a := ParseAddress(IpPart(addr)).value;
      MaskedBelow(a, 24);
      MaskedTwice(a, 24);
      ParseFormat(Masked(a, 24));
      NetworkText(FormatAddress(Masked(a, 24)), Masked(a, 24));
    }
  }

  /** Without `c` the text before the first `c` is everything. */
  lemma BeforeFirstWithout(s: string, c: char)
    requires c !in s
    ensures BeforeFirst(s, c) == s
  {
  }

  /** One more address adds its range, if it has one. */
  lemma IpRangesSnoc(s: seq<string>, a: string)
    ensures IpRanges(s + [a]) == IpRanges(s) + (if RangeOf(a).Some? then {RangeOf(a).value} else {})
  {
  }

  /** `_extract_ip_ranges`: the set of ranges of the addresses that have one. */
  function IpRanges(addresses: seq<string>): set<string> {
    set a | a in addresses && RangeOf(a).Some? :: RangeOf(a).value
  }

  /** `_extract_ip_ranges`, as its loop adds to the set. */
  method ExtractIpRanges(addresses: seq<string>) returns (ranges: set<string>)
    ensures ranges == IpRanges(addresses)
    ensures forall r | r in ranges :: exists a | a in addresses :: RangeOf(a) == Some(r)
  {
    ranges := {};
    for i := 0 to |addresses|
      invariant ranges == IpRanges(addresses[..i])
    {
      var addr := addresses[i];
      assert addresses[..i + 1] == addresses[..i] + [addr];
      IpRangesSnoc(addresses[..i], addr);
      var ipPart := if ':' in addr then BeforeFirst(addr, ':') else addr;
      if ':' !in addr {
        BeforeFirstWithout(addr, ':');
      }
      if '.' in ipPart && (exists k | 0 <= k < |ipPart| :: IsDigit(ipPart[k])) {
        var ip := ParseAddress(ipPart);
        if ip.Some? {
          MaskedBelow(ip.value, 24);
          ranges := ranges + {FormatAddress(Masked(ip.value, 24)) + "/24"};
        }
      }
    }
    assert addresses[..|addresses|] == addresses;
  }

  /** `_determine_broadcast_scope` on the number of ranges. */
  function Scope(rangeCount: nat): (r: string)
    ensures r == "local" <==> rangeCount == 0
    ensures r == "subnet" <==> rangeCount == 1
    ensures r == "moderate" <==> 2 <= rangeCount <= 3
    ensures r == "wide" <==> rangeCount >= 4
  {
    if rangeCount == 0 then "local"
    else if rangeCount == 1 then "subnet"
    else if rangeCount <= 3 then "moderate"
    else "wide"
  }

  /** The scopes in order of breadth. */
  function Breadth(scope: string): nat {
    if scope == "local" then 0 else if scope == "subnet" then 1 else if scope == "moderate" then 2 else 3
  }

  /** More ranges never narrow the scope, and the scope spans several ranges exactly when it is
      moderate or wide. */
  lemma ScopeMonotone(m: nat, n: nat)
    requires m <= n
    ensures Breadth(Scope(m)) <= Breadth(Scope(n))
    ensures Scope(n) in {"moderate", "wide"} <==> n > 1
  {
  }

  // ---------------------------------------------------------------------------------------------
  // Domains

  /** One broadcast domain: the network, its subnets, its devices, its BBMDs, its ranges and the
      scope of those ranges. */
  datatype Domain = Domain(
    network: Node,
    subnets: set<Node>,
    devices: set<Node>,
    bbmds: set<Node>,
    ipRanges: set<string>,
    scope: string)

  /** The Subnet-typed subjects that are subnet-of-network `n`. */
  function NetworkSubnets(g: Graph, subnets: set<Node>, n: Node): set<Node> {
    set t | t in g && t.p == SubnetOfNetwork && t.o == n && t.s in subnets :: t.s
  }

  /** The subjects that are device-on-network `n` or device-on-subnet one of `subs`. */
  function DomainDevices(g: Graph, n: Node, subs: set<Node>): set<Node> {
    set t | t in g && ((t.p == DeviceOnNetwork && t.o == n) || (t.p == DeviceOnSubnet && t.o in subs)) :: t.s
  }

  /** The BBMD-typed subjects that are bbmd-on-subnet one of `subs`. */
  function DomainBbmds(g: Graph, bbmds: set<Node>, subs: set<Node>): set<Node> {
    set t | t in g && t.p == BbmdOnSubnet && t.o in subs && t.s in bbmds :: t.s
  }

  /** The ranges of the addresses of `devices`. */
  function DomainRanges(g: Graph, devices: set<Node>): set<string> {
    set t | t in g && t.p == Address && t.s in devices && RangeOf(t.o).Some? :: RangeOf(t.o).value
  }

  /** The domain of network `n` as `_analyze_broadcast_domains` records it. */
  function DomainOf(g: Graph, subnets: set<Node>, bbmds: set<Node>, n: Node): Domain {
    var subs := NetworkSubnets(g, subnets, n);
    var devices := DomainDevices(g, n, subs);
    var ranges := DomainRanges(g, devices);
    Domain(n, subs, devices, DomainBbmds(g, bbmds, subs), ranges, Scope(|ranges|))
  }

  /** A device is in the domain iff it is on the network directly or on one of the network's
      Subnets; a BBMD iff it is BBMD-typed and on one of those Subnets; a range iff some device
      of the domain has an address in it. */
  lemma DomainSpec(g: Graph, subnets: set<Node>, bbmds: set<Node>, n: Node, x: Node, r: string)
    ensures x in DomainOf(g, subnets, bbmds, n).subnets <==> x in subnets && Triple(x, SubnetOfNetwork, n) in g
    ensures x in DomainOf(g, subnets, bbmds, n).devices <==>
      Triple(x, DeviceOnNetwork, n) in g ||
      exists s :: s in subnets && Triple(s, SubnetOfNetwork, n) in g && Triple(x, DeviceOnSubnet, s) in g
    ensures x in DomainOf(g, subnets, bbmds, n).bbmds <==>
      x in bbmds && exists s :: s in subnets && Triple(s, SubnetOfNetwork, n) in g && Triple(x, BbmdOnSubnet, s) in g
    ensures r in DomainOf(g, subnets, bbmds, n).ipRanges <==>
      exists dev, a :: Triple(dev, Address, a) in g && dev in DomainOf(g, subnets, bbmds, n).devices && RangeOf(a) == Some(r)
  {
    DomainSubnetMember(g, subnets, bbmds, n, x);
    DomainDeviceMember(g, subnets, bbmds, n, x);
    DomainBbmdMember(g, subnets, bbmds, n, x);
    DomainRangeMember(g, subnets, bbmds, n, r);
  }

  lemma DomainSubnetMember(g: Graph, subnets: set<Node>, bbmds: set<Node>, n: Node, x: Node)
    ensures x in DomainOf(g, subnets, bbmds, n).subnets <==> x in subnets && Triple(x, SubnetOfNetwork, n) in g
  {
    if x in subnets && Triple(x, SubnetOfNetwork, n) in g {
      assert Triple(x, SubnetOfNetwork, n).s == x;
    }
  }

  lemma DomainDeviceMember(g: Graph, subnets: set<Node>, bbmds: set<Node>, n: Node, x: Node)
    ensures x in DomainOf(g, subnets, bbmds, n).devices <==>
      Triple(x, DeviceOnNetwork, n) in g ||
      exists s :: s in subnets && Triple(s, SubnetOfNetwork, n) in g && Triple(x, DeviceOnSubnet, s) in g
  {
    var d := DomainOf(g, subnets, bbmds, n);
    if Triple(x, DeviceOnNetwork, n) in g {
      assert Triple(x, DeviceOnNetwork, n).s == x;
    }
    if exists s :: s in subnets && Triple(s, SubnetOfNetwork, n) in g && Triple(x, DeviceOnSubnet, s) in g {
      var s :| s in subnets && Triple(s, SubnetOfNetwork, n) in g && Triple(x, DeviceOnSubnet, s) in g;
      assert Triple(s, SubnetOfNetwork, n).s == s;
      assert Triple(x, DeviceOnSubnet, s).s == x;
    }
    if x in d.devices && Triple(x, DeviceOnNetwork, n) !in g {
      var t :| t in g && ((t.p == DeviceOnNetwork && t.o == n) || (t.p == DeviceOnSubnet && t.o in d.subnets)) && t.s == x;
      var s := t.o;
      var u :| u in g && u.p == SubnetOfNetwork && u.o == n && u.s in subnets && u.s == s;
      assert Triple(s, SubnetOfNetwork, n) == u;
      assert Triple(x, DeviceOnSubnet, s) == t;
    }
  }

  lemma DomainBbmdMember(g: Graph, subnets: set<Node>, bbmds: set<Node>, n: Node, x: Node)
    ensures x in DomainOf(g, subnets, bbmds, n).bbmds <==>
      x in bbmds && exists s :: s in subnets && Triple(s, SubnetOfNetwork, n) in g && Triple(x, BbmdOnSubnet, s) in g
  {
    var d := DomainOf(g, subnets, bbmds, n);
    if x in bbmds && exists s :: s in subnets && Triple(s, SubnetOfNetwork, n) in g && Triple(x, BbmdOnSubnet, s) in g {
      var s :| s in subnets && Triple(s, SubnetOfNetwork, n) in g && Triple(x, BbmdOnSubnet, s) in g;
      assert Triple(s, SubnetOfNetwork, n).s == s;
      assert Triple(x, BbmdOnSubnet, s).s == x;
    }
    if x in d.bbmds {
      var t :| t in g && t.p == BbmdOnSubnet && t.o in d.subnets && t.s in bbmds && t.s == x;
      var s := t.o;
      var u :| u in g && u.p == SubnetOfNetwork && u.o == n && u.s in subnets && u.s == s;
      assert Triple(s, SubnetOfNetwork, n) == u;
      assert Triple(x, BbmdOnSubnet, s) == t;
    }
  }

  lemma DomainRangeMember(g: Graph, subnets: set<Node>, bbmds: set<Node>, n: Node, r: string)
    ensures r in DomainOf(g, subnets, bbmds, n).ipRanges <==>
      exists dev, a :: Triple(dev, Address, a) in g && dev in DomainOf(g, subnets, bbmds, n).devices && RangeOf(a) == Some(r)
  {
    var d := DomainOf(g, subnets, bbmds, n);
    if r in d.ipRanges {
      var t :| t in g && t.p == Address && t.s in d.devices && RangeOf(t.o).Some? && RangeOf(t.o).value == r;
      assert Triple(t.s, Address, t.o) == t;
    }
    if exists dev, a :: Triple(dev, Address, a) in g && dev in d.devices && RangeOf(a) == Some(r) {
      var dev, a :| Triple(dev, Address, a) in g && dev in d.devices && RangeOf(a) == Some(r);
      assert Triple(dev, Address, a).o == a;
    }
  }

  // ---------------------------------------------------------------------------------------------
  // Findings

  datatype Issue =
    | LargeDomain(
        issueType: string,
        severity: Severity,
        network: Node,
        networkName: string,
        subnetCount: nat,
        deviceCount: nat,
        scope: string,
        subnetThreshold: nat,
        deviceThreshold: nat)
    | MissingCoverage(
        issueType: string,
        severity: Severity,
        network: Node,
        networkName: string,
        subnetCount: nat,
        deviceCount: nat,
        scope: string,
        bbmdsRecommended: nat)
    | Overlap(
        issueType: string,
        severity: Severity,
        ipRange: string,
        overlappingDomains: seq<string>,
        domainCount: nat,
        affectedNetworks: seq<Node>)

  const SubnetWarningThreshold: nat := 5
  const SubnetCriticalThreshold: nat := 10
  const DeviceWarningThreshold: nat := 200
  const DeviceCriticalThreshold: nat := 500

  /** `_check_large_broadcast_domains` for one domain: critical from 10 subnets or 500 devices on,
      else a warning from 5 subnets or 200 devices on, else nothing; the thresholds reported are
      those of the severity. */
  function LargeFinding(d: Domain): (r: Option<Issue>)
    ensures r.Some? <==> |d.subnets| >= 5 || |d.devices| >= 200
    ensures r.Some? ==>
      && r.value.LargeDomain? && r.value.network == d.network
      && r.value.networkName == NetworkLoops.Name(d.network)
      && r.value.subnetCount == |d.subnets| && r.value.deviceCount == |d.devices| && r.value.scope == d.scope
      && (r.value.severity == Critical <==> |d.subnets| >= 10 || |d.devices| >= 500)
      && (r.value.severity == Critical || r.value.severity == Warning)
      && (r.value.subnetCount >= r.value.subnetThreshold || r.value.deviceCount >= r.value.deviceThreshold)
  {
    var subnetCount, deviceCount := |d.subnets|, |d.devices|;
    var name := NetworkLoops.Name(d.network);
    if subnetCount >= SubnetCriticalThreshold || deviceCount >= DeviceCriticalThreshold then
      Some(LargeDomain("broadcast-domain-critical", Critical, d.network, name, subnetCount, deviceCount, d.scope,
                       SubnetCriticalThreshold, DeviceCriticalThreshold))
    else if subnetCount >= SubnetWarningThreshold || deviceCount >= DeviceWarningThreshold then
      Some(LargeDomain("broadcast-domain-warning", Warning, d.network, name, subnetCount, deviceCount, d.scope,
                       SubnetWarningThreshold, DeviceWarningThreshold))
    else None
  }

  /** The number of BBMDs `_get_bbmd_placement_recommendation` proposes: the fewest that give each
      at most three subnets, and at least one. */
  function BbmdCount(subnetCount: nat): (r: nat)
    ensures r >= 1 && 3 * r >= subnetCount
    ensures r == 1 || 3 * (r - 1) < subnetCount
  {
    if subnetCount <= 3 then 1
    else if subnetCount <= 6 then 2
    else (subnetCount + 2) / 3
  }

  /** `needs_bbmd`. */
  predicate NeedsBbmd(d: Domain) {
    |d.subnets| > 2 || |d.devices| > 100 || d.scope in ["moderate", "wide"] || |d.ipRanges| > 1
  }

  /** For a recorded domain the scope clause adds nothing: a domain needs a BBMD iff it has more
      than two subnets, more than 100 devices, or more than one range. */
  lemma NeedsBbmdSpec(g: Graph, subnets: set<Node>, bbmds: set<Node>, n: Node)
    ensures NeedsBbmd(DomainOf(g, subnets, bbmds, n)) <==>
      var d := DomainOf(g, subnets, bbmds, n);
      |d.subnets| > 2 || |d.devices| > 100 || |d.ipRanges| > 1
  {
  }

  /** `_check_missing_bbmd_coverage` for one domain: a warning iff the domain needs a BBMD and has
      none. */
  function CoverageFinding(d: Domain): (r: Option<Issue>)
    ensures r.Some? <==> NeedsBbmd(d) && d.bbmds == {}
    ensures r.Some? ==>
      && r.value.MissingCoverage? && r.value.severity == Warning && r.value.network == d.network
      && r.value.subnetCount == |d.subnets| && r.value.deviceCount == |d.devices|
      && r.value.bbmdsRecommended == BbmdCount(|d.subnets|)
  {
    if NeedsBbmd(d) && |d.bbmds| == 0 then
      Some(MissingCoverage("missing-bbmd-coverage", Warning, d.network, NetworkLoops.Name(d.network),
                           |d.subnets|, |d.devices|, d.scope, BbmdCount(|d.subnets|)))
    else None
  }

  /** `_check_inefficient_bbmd_placement`: a placeholder that reports nothing. */
  function InefficientPlacement(domains: seq<Domain>, bbmds: set<Node>): (r: seq<Issue>)
    ensures r == []
  {
    []
  }

  /** The networks whose domains hold range `r`, in domain order. */
  function Sharing(domains: seq<Domain>, r: string): seq<Node> {
    if domains == [] then []
    else
      var last := domains[|domains| - 1];
      Sharing(domains[..|domains| - 1], r) + (if r in last.ipRanges then [last.network] else [])
  }

  /** A network shares `r` iff one of the domains is its domain and holds `r`. */
  lemma {:induction false} SharingMember(domains: seq<Domain>, r: string, n: Node)
    ensures n in Sharing(domains, r) <==> exists i :: 0 <= i < |domains| && domains[i].network == n && r in domains[i].ipRanges
  {
    if domains != [] {
      var q := domains[..|domains| - 1];
      SharingMember(q, r, n);
      assert forall i | 0 <= i < |q| :: q[i] == domains[i];
    }
  }

  /** The overlap finding of range `r`. */
  function OverlapOf(domains: seq<Domain>, r: string): Issue {
    var shared := Sharing(domains, r);
    Overlap("broadcast-domain-overlap", Warning, r, Map(shared, NetworkLoops.Name), |shared|, shared)
  }

  /** The range an overlap finding is about. */
  function RangeKey(x: Issue): string {
    if x.Overlap? then x.ipRange else ""
  }

  /** An overlap finding for `r` iff at least two domains hold it. */
  function OverlapFinding(domains: seq<Domain>): string -> Option<Issue> {
    r => if |Sharing(domains, r)| > 1 then Some(OverlapOf(domains, r)) else None
  }

  // ---------------------------------------------------------------------------------------------
  // Building the domains

  /** `network_subnets[n]` of a `defaultdict(set)`: nothing for an absent key. */
  function SubnetsIn(m: map<Node, set<Node>>, n: Node): set<Node> {
    if n in m then m[n] else {}
  }

  /** One more triple adds its subject to its network's subnets when it links a Subnet to a
      network. */
  lemma NetworkSubnetsSnoc(g: Graph, t: Triple, subnets: set<Node>, n: Node)
    ensures NetworkSubnets(g + [t], subnets, n) ==
      NetworkSubnets(g, subnets, n) + (if t.p == SubnetOfNetwork && t.o == n && t.s in subnets then {t.s} else {})
  {
  }

  /** The subnet loop: `network_subnets` for the networks in `networks`. */
  method MapSubnets(g: Graph, networks: set<Node>, subnets: set<Node>) returns (m: map<Node, set<Node>>)
    ensures forall n | n in networks :: SubnetsIn(m, n) == NetworkSubnets(g, subnets, n)
  {
    m := map[];
    for i := 0 to |g|
      invariant forall n | n in networks :: SubnetsIn(m, n) == NetworkSubnets(g[..i], subnets, n)
    {
      var t := g[i];
      assert g[..i + 1] == g[..i] + [t];
      forall n | n in networks {
        NetworkSubnetsSnoc(g[..i], t, subnets, n);
      }
      if t.p == SubnetOfNetwork && t.s in subnets && t.o in networks {
        m := m[t.o := SubnetsIn(m, t.o) + {t.s}];
      }
    }
    assert g[..|g|] == g;
  }

  /** One more subnet adds the devices on it. */
  lemma DevicesStep(g: Graph, n: Node, subs: set<Node>, s: Node)
    ensures DomainDevices(g, n, subs + {s}) == DomainDevices(g, n, subs) + Elems(Subjects(g, DeviceOnSubnet, s))
  {
    forall x | x in Elems(Subjects(g, DeviceOnSubnet, s)) ensures x in DomainDevices(g, n, subs + {s}) {
      assert Triple(x, DeviceOnSubnet, s).s == x;
    }
  }

  /** The devices of network `n` whose subnets are `subs`. */
  method CollectDevices(g: Graph, n: Node, subs: set<Node>) returns (devices: set<Node>)
    ensures devices == DomainDevices(g, n, subs)
  {
    devices := AddSubjects(g, DeviceOnNetwork, n, {});
    assert devices == DomainDevices(g, n, {}) by {
      forall x | x in devices ensures x in DomainDevices(g, n, {}) {
        assert Triple(x, DeviceOnNetwork, n).s == x;
      }
    }
    var order := ListOf(subs);
    for k := 0 to |order|
      invariant devices == DomainDevices(g, n, Elems(order[..k]))
    {
      assert order[..k + 1] == order[..k] + [order[k]];
      ElemsAppend(order[..k], [order[k]]);
      DevicesStep(g, n, Elems(order[..k]), order[k]);
      devices := AddSubjects(g, DeviceOnSubnet, order[k], devices);
    }
    assert order[..|order|] == order;
  }

  /** One more subnet adds the BBMDs on it. */
  lemma BbmdsStep(g: Graph, bbmds: set<Node>, subs: set<Node>, s: Node)
    ensures DomainBbmds(g, bbmds, subs + {s}) == DomainBbmds(g, bbmds, subs) + Elems(Subjects(g, BbmdOnSubnet, s)) * bbmds
  {
    forall x | x in Elems(Subjects(g, BbmdOnSubnet, s)) * bbmds ensures x in DomainBbmds(g, bbmds, subs + {s}) {
      assert Triple(x, BbmdOnSubnet, s).s == x;
    }
  }

  /** The inner BBMD loop for one subnet: the BBMD-typed subjects on it. */
  method AddBbmdsOn(g: Graph, bbmds: set<Node>, subnet: Node, acc: set<Node>) returns (r: set<Node>)
    ensures r == acc + Elems(Subjects(g, BbmdOnSubnet, subnet)) * bbmds
  {
    var on := Subjects(g, BbmdOnSubnet, subnet);
    r := acc;
    for i := 0 to |on|
      invariant r == acc + Elems(on[..i]) * bbmds
    {
      assert on[..i + 1] == on[..i] + [on[i]];
      ElemsAppend(on[..i], [on[i]]);
      if on[i] in bbmds {
        r := r + {on[i]};
      }
    }
    assert on[..|on|] == on;
  }

  /** The BBMDs of a domain whose subnets are `subs`. */
  method CollectBbmds(g: Graph, bbmds: set<Node>, subs: set<Node>) returns (found: set<Node>)
    ensures found == DomainBbmds(g, bbmds, subs)
  {
    found := {};
    var order := ListOf(subs);
    for k := 0 to |order|
      invariant found == DomainBbmds(g, bbmds, Elems(order[..k]))
    {
      assert order[..k + 1] == order[..k] + [order[k]];
      ElemsAppend(order[..k], [order[k]]);
      BbmdsStep(g, bbmds, Elems(order[..k]), order[k]);
      found := AddBbmdsOn(g, bbmds, order[k], found);
    }
    assert order[..|order|] == order;
  }

  /** The addresses of the devices in `devices`. */
  function AddressSet(g: Graph, devices: set<Node>): set<string> {
    set t | t in g && t.p == Address && t.s in devices :: t.o
  }

  /** One more device adds its addresses. */
  lemma AddressesStep(g: Graph, devices: set<Node>, d: Node)
    ensures AddressSet(g, devices + {d}) == AddressSet(g, devices) + Elems(Objects(g, d, Address))
  {
    forall a | a in Elems(Objects(g, d, Address)) ensures a in AddressSet(g, devices + {d}) {
      assert Triple(d, Address, a).o == a;
    }
  }

  /** The ranges of a list of addresses depend only on which addresses it holds, and those of the
      domain's addresses are the domain's ranges. */
  lemma RangesOfAddresses(g: Graph, devices: set<Node>, addresses: seq<string>)
    requires Elems(addresses) == AddressSet(g, devices)
    ensures IpRanges(addresses) == DomainRanges(g, devices)
  {
    forall r | r in DomainRanges(g, devices) ensures r in IpRanges(addresses) {
      var t :| t in g && t.p == Address && t.s in devices && RangeOf(t.o).Some? && RangeOf(t.o).value == r;
      assert t.o in AddressSet(g, devices);
      assert t.o in Elems(addresses);
    }
    forall r | r in IpRanges(addresses) ensures r in DomainRanges(g, devices) {
      var a :| a in addresses && RangeOf(a).Some? && RangeOf(a).value == r;
      assert a in Elems(addresses);
      var t :| t in g && t.p == Address && t.s in devices && t.o == a;
    }
  }

  /** The address loop: every address of every device of the domain, device by device. */
  method CollectAddresses(g: Graph, devices: set<Node>) returns (addresses: seq<string>)
    ensures Elems(addresses) == AddressSet(g, devices)
  {
    addresses := [];
    var order := ListOf(devices);
    for k := 0 to |order|
      invariant Elems(addresses) == AddressSet(g, Elems(order[..k]))
    {
      assert order[..k + 1] == order[..k] + [order[k]];
      ElemsAppend(order[..k], [order[k]]);
      AddressesStep(g, Elems(order[..k]), order[k]);
      ElemsAppend(addresses, Objects(g, order[k], Address));
      addresses := addresses + Objects(g, order[k], Address);
    }
    assert order[..|order|] == order;
  }

  /** The body of the domain loop for network `n`: its `domain_info`. */
  method AnalyzeDomain(g: Graph, subnets: set<Node>, bbmds: set<Node>, n: Node, subs: set<Node>)
    returns (d: Domain)
    requires subs == NetworkSubnets(g, subnets, n)
    ensures d == DomainOf(g, subnets, bbmds, n)
  {
    var devices := CollectDevices(g, n, subs);
    var found := CollectBbmds(g, bbmds, subs);
    var addresses := CollectAddresses(g, devices);
    var ranges := ExtractIpRanges(addresses);
    RangesOfAddresses(g, devices, addresses);
    d := Domain(n, subs, devices, found, ranges, Scope(|ranges|));
  }

  /** The networks of the domains, in order. */
  function NetworksOf(domains: seq<Domain>): seq<Node> {
    Map(domains, (d: Domain) => d.network)
  }

  /** `_analyze_broadcast_domains`: one domain per network, each network once, in the networks'
      iteration order. */
  method AnalyzeBroadcastDomains(g: Graph, networks: set<Node>, subnets: set<Node>, bbmds: set<Node>)
    returns (domains: seq<Domain>)
    ensures Distinct(NetworksOf(domains)) && Elems(NetworksOf(domains)) == networks
    ensures forall i | 0 <= i < |domains| :: domains[i] == DomainOf(g, subnets, bbmds, domains[i].network)
  {
    var m := MapSubnets(g, networks, subnets);
    var order := ListOf(networks);
    domains := [];
    for j := 0 to |order|
      invariant NetworksOf(domains) == order[..j]
      invariant forall i | 0 <= i < |domains| :: domains[i] == DomainOf(g, subnets, bbmds, domains[i].network)
    {
      var network := order[j];
      var d := AnalyzeDomain(g, subnets, bbmds, network, SubnetsIn(m, network));
      MapSnoc(domains, d, (d: Domain) => d.network);
      assert order[..j + 1] == order[..j] + [network];
      domains := domains + [d];
    }
    assert order[..|order|] == order;
  }

  // ---------------------------------------------------------------------------------------------
  // The passes

  /** `_check_large_broadcast_domains`: the size finding of every domain that has one, in domain
      order. */
  method CheckLargeBroadcastDomains(domains: seq<Domain>) returns (issues: seq<Issue>)
    ensures issues == Collect(domains, LargeFinding)
  {
    issues := [];
    for i := 0 to |domains|
      invariant issues == Collect(domains[..i], LargeFinding)
    {
      CollectStep(domains, i, LargeFinding);
      var finding := LargeFinding(domains[i]);
      if finding.Some? {
        issues := issues + [finding.value];
      }
    }
    assert domains[..|domains|] == domains;
  }

  /** `_check_missing_bbmd_coverage`: the coverage finding of every domain that has one, in domain
      order. */
  method CheckMissingBbmdCoverage(domains: seq<Domain>) returns (issues: seq<Issue>)
    ensures issues == Collect(domains, CoverageFinding)
  {
    issues := [];
    for i := 0 to |domains|
      invariant issues == Collect(domains[..i], CoverageFinding)
    {
      CollectStep(domains, i, CoverageFinding);
      var finding := CoverageFinding(domains[i]);
      if finding.Some? {
        issues := issues + [finding.value];
      }
    }
    assert domains[..|domains|] == domains;
  }

  /** `ip_range_to_domains[r]` of a `defaultdict(list)`. */
  function Lookup(m: map<string, seq<Node>>, r: string): seq<Node> {
    if r in m then m[r] else []
  }

  /** The grouping dictionary agrees with `Sharing` over `domains`: its keys, in insertion order,
      are the ranges some domain holds. */
  ghost predicate Grouped(domains: seq<Domain>, keys: seq<string>, m: map<string, seq<Node>>) {
    && Distinct(keys) && Elems(keys) == m.Keys
    && (forall r :: Lookup(m, r) == Sharing(domains, r))
    && (forall r | r in m :: m[r] != [])
  }

  /** One more domain appends its network to the lists of its ranges. */
  lemma SharingSnoc(domains: seq<Domain>, d: Domain, r: string)
    ensures Sharing(domains + [d], r) == Sharing(domains, r) + (if r in d.ipRanges then [d.network] else [])
  {
    assert (domains + [d])[..|domains|] == domains;
  }

  /** The grouping dictionary part way through one more domain `d`: `d`'s network is appended
      under the ranges of `rs`. */
  ghost predicate GroupedPart(done: seq<Domain>, d: Domain, rs: seq<string>, keys: seq<string>, m: map<string, seq<Node>>) {
    && Distinct(keys) && Elems(keys) == m.Keys
    && (forall r :: Lookup(m, r) == Sharing(done, r) + (if r in rs then [d.network] else []))
    && (forall r | r in m :: m[r] != [])
  }

  /** The inner grouping loop for one domain: its network is appended under each of its ranges. */
  method GroupDomain(ghost done: seq<Domain>, d: Domain, keys: seq<string>, m: map<string, seq<Node>>)
    returns (keys': seq<string>, m': map<string, seq<Node>>)
    requires Grouped(done, keys, m)
    ensures Grouped(done + [d], keys', m')
  {
    keys', m' := keys, m;
    var ranges := ListOf(d.ipRanges);
    assert ranges[..0] == [];
    for j := 0 to |ranges|
      invariant GroupedPart(done, d, ranges[..j], keys', m')
    {
      var r := ranges[j];
      assert ranges[..j + 1] == ranges[..j] + [r];
      assert r !in ranges[..j];
      ghost var keys0, m0 := keys', m';
      if r !in m' {
        keys' := keys' + [r];
        m' := m'[r := []];
      }
      GroupAppend(done, d, ranges[..j], r, keys0, m0, keys', m');
      m' := m'[r := m'[r] + [d.network]];
    }
    GroupDone(done, d, ranges, keys', m');
  }

  /** Appending `d`'s network under a range not handled yet, its key added first when new. */
  lemma GroupAppend(done: seq<Domain>, d: Domain, rs: seq<string>, r: string,
                    keys: seq<string>, m: map<string, seq<Node>>, keys': seq<string>, m': map<string, seq<Node>>)
    requires GroupedPart(done, d, rs, keys, m) && r !in rs
    requires r in m ==> keys' == keys && m' == m
    requires r !in m ==> keys' == keys + [r] && m' == m[r := []]
    ensures r in m' && GroupedPart(done, d, rs + [r], keys', m'[r := m'[r] + [d.network]])
  {
    if r !in m {
      DistinctSnoc(keys, r);
      ElemsAppend(keys, [r]);
    }
    var m2 := m'[r := m'[r] + [d.network]];
    forall x ensures Lookup(m2, x) == Sharing(done, x) + (if x in rs + [r] then [d.network] else []) {
      assert Lookup(m, x) == Sharing(done, x) + (if x in rs then [d.network] else []);
    }
  }

  /** After every range of `d`, the dictionary agrees with `Sharing` over one domain more. */
  lemma GroupDone(done: seq<Domain>, d: Domain, ranges: seq<string>, keys: seq<string>, m: map<string, seq<Node>>)
    requires Elems(ranges) == d.ipRanges && GroupedPart(done, d, ranges[..|ranges|], keys, m)
    ensures Grouped(done + [d], keys, m)
  {
    assert ranges[..|ranges|] == ranges;
    forall r ensures Lookup(m, r) == Sharing(done + [d], r) {
      SharingSnoc(done, d, r);
    }
  }

  /** The overlap findings, read off a grouping whose keys are all the ranges: one per range held
      by at least two domains, each range once, each finding that of its range. */
  lemma OverlapSpec(domains: seq<Domain>, keys: seq<string>)
    requires Distinct(keys) && forall r :: r in keys <==> Sharing(domains, r) != []
    ensures forall x | x in Collect(keys, OverlapFinding(domains)) ::
      x == OverlapOf(domains, RangeKey(x)) && |Sharing(domains, RangeKey(x))| > 1
    ensures forall r :: (exists x | x in Collect(keys, OverlapFinding(domains)) :: RangeKey(x) == r) <==>
      |Sharing(domains, r)| > 1
    ensures forall i, j :: 0 <= i < j < |Collect(keys, OverlapFinding(domains))| ==>
      RangeKey(Collect(keys, OverlapFinding(domains))[i]) != RangeKey(Collect(keys, OverlapFinding(domains))[j])
  {
    var f := OverlapFinding(domains);
    var issues := Collect(keys, f);
    forall x | x in issues ensures x == OverlapOf(domains, RangeKey(x)) && |Sharing(domains, RangeKey(x))| > 1 {
      CollectMember(keys, f, x);
    }
    forall r ensures (exists x | x in issues :: RangeKey(x) == r) <==> |Sharing(domains, r)| > 1 {
      CollectKeyMember(keys, f, RangeKey, r);
    }
    CollectDistinctKeys(keys, f, RangeKey);
  }

  /** The reporting loop over the grouping. */
  method ReportOverlaps(ghost domains: seq<Domain>, keys: seq<string>, m: map<string, seq<Node>>)
    returns (issues: seq<Issue>)
    requires Grouped(domains, keys, m)
    ensures issues == Collect(keys, OverlapFinding(domains))
  {
    issues := [];
    for k := 0 to |keys|
      invariant issues == Collect(keys[..k], OverlapFinding(domains))
    {
      CollectStep(keys, k, OverlapFinding(domains));
      var r := keys[k];
      assert r in m;
      var domainList := m[r];
      assert domainList == Sharing(domains, r);
      if |domainList| > 1 {
        issues := issues + [Overlap("broadcast-domain-overlap", Warning, r, Map(domainList, NetworkLoops.Name),
                                    |domainList|, domainList)];
      }
    }
    assert keys[..|keys|] == keys;
  }

  /** `_check_broadcast_domain_overlap`: one finding per range held by at least two domains, each
      listing the networks holding it in domain order; ranges appear in the dictionary's insertion
      order, which follows the iteration order of the range sets. */
  method CheckBroadcastDomainOverlap(domains: seq<Domain>) returns (issues: seq<Issue>)
    ensures forall x | x in issues :: x == OverlapOf(domains, RangeKey(x)) && |Sharing(domains, RangeKey(x))| > 1
    ensures forall r :: (exists x | x in issues :: RangeKey(x) == r) <==> |Sharing(domains, r)| > 1
    ensures forall i, j :: 0 <= i < j < |issues| ==> RangeKey(issues[i]) != RangeKey(issues[j])
  {
    var keys: seq<string> := [];
    var m: map<string, seq<Node>> := map[];
    for i := 0 to |domains|
      invariant Grouped(domains[..i], keys, m)
    {
      assert domains[..i + 1] == domains[..i] + [domains[i]];
      keys, m := GroupDomain(domains[..i], domains[i], keys, m);
    }
    assert domains[..|domains|] == domains;
    issues := ReportOverlaps(domains, keys, m);
    forall r ensures r in keys <==> Sharing(domains, r) != [] {
      assert r in keys <==> r in m;
    }
    OverlapSpec(domains, keys);
  }

  // ---------------------------------------------------------------------------------------------
  // The analyzer

  /** The networks of the graph: its BACnetNetwork-typed subjects. */
  function NetworkSet(g: Graph): set<Node> {
    Elems(OfType(g, NetworkClass))
  }

  /** The domain of network `n` in `g`. */
  function DomainIn(g: Graph, n: Node): Domain {
    DomainOf(g, Elems(OfType(g, SubnetClass)), Elems(OfType(g, BbmdClass)), n)
  }

  /** The networks whose domains hold range `r`. */
  ghost function SharingSet(g: Graph, r: string): set<Node> {
    set n | n in NetworkSet(g) && r in DomainIn(g, n).ipRanges
  }

  /** The domains of `g`, in some order. */
  ghost predicate DomainsOf(g: Graph, domains: seq<Domain>) {
    && Distinct(NetworksOf(domains)) && Elems(NetworksOf(domains)) == NetworkSet(g)
    && forall i | 0 <= i < |domains| :: domains[i] == DomainIn(g, domains[i].network)
  }

  /** The nodes a finding adds to the affected set: its network, or the networks sharing its range. */
  function IssueNodes(x: Issue): set<Node> {
    if x.Overlap? then Elems(x.affectedNetworks) else {x.network}
  }

  /** A network is among the domains iff it is a network of the graph. */
  lemma DomainsMember(g: Graph, domains: seq<Domain>, n: Node)
    requires DomainsOf(g, domains)
    ensures n in NetworkSet(g) <==> exists i :: 0 <= i < |domains| && domains[i].network == n
  {
    assert n in NetworkSet(g) <==> n in NetworksOf(domains);
    if n in NetworksOf(domains) {
      var i :| 0 <= i < |domains| && NetworksOf(domains)[i] == n;
    }
    if exists i :: 0 <= i < |domains| && domains[i].network == n {
      var i :| 0 <= i < |domains| && domains[i].network == n;
      assert NetworksOf(domains)[i] == n;
    }
  }

  /** Over the domains of `g`, a range is shared by exactly the networks of `SharingSet`, each once. */
  lemma {:induction false} SharingOfDomains(domains: seq<Domain>, r: string)
    requires Distinct(NetworksOf(domains))
    ensures Distinct(Sharing(domains, r))
  {
    if domains != [] {
      var q := domains[..|domains| - 1];
      var last := domains[|domains| - 1];
      assert NetworksOf(domains) == NetworksOf(q) + [last.network];
      SharingOfDomains(q, r);
      SharingMember(q, r, last.network);
      forall i | 0 <= i < |q| ensures q[i].network != last.network {
        assert NetworksOf(domains)[i] == q[i].network;
      }
      DistinctSnoc(Sharing(q, r), last.network);
    }
  }

  /** The shared networks are those of `SharingSet`, and there are as many as its size. */
  lemma SharingInGraph(g: Graph, domains: seq<Domain>, r: string)
    requires DomainsOf(g, domains)
    ensures Elems(Sharing(domains, r)) == SharingSet(g, r)
    ensures Distinct(Sharing(domains, r)) && |Sharing(domains, r)| == |SharingSet(g, r)|
  {
    forall n ensures n in Sharing(domains, r) <==> n in SharingSet(g, r) {
      SharingMember(domains, r, n);
      DomainsMember(g, domains, n);
    }
    SharingOfDomains(domains, r);
    DistinctElems(Sharing(domains, r));
  }

  /** The size findings over the domains of `g`: one per network that has one. */
  lemma LargeInGraph(g: Graph, domains: seq<Domain>)
    requires DomainsOf(g, domains)
    ensures forall x | x in Collect(domains, LargeFinding) ::
      x.LargeDomain? && x.network in NetworkSet(g) && LargeFinding(DomainIn(g, x.network)) == Some(x)
    ensures forall n | n in NetworkSet(g) && LargeFinding(DomainIn(g, n)).Some? ::
      LargeFinding(DomainIn(g, n)).value in Collect(domains, LargeFinding)
  {
    forall x | x in Collect(domains, LargeFinding)
      ensures x.LargeDomain? && x.network in NetworkSet(g) && LargeFinding(DomainIn(g, x.network)) == Some(x)
    {
      CollectMember(domains, LargeFinding, x);
      var d :| d in domains && LargeFinding(d) == Some(x);
      var i :| 0 <= i < |domains| && domains[i] == d;
      DomainsMember(g, domains, d.network);
    }
    forall n | n in NetworkSet(g) && LargeFinding(DomainIn(g, n)).Some?
      ensures LargeFinding(DomainIn(g, n)).value in Collect(domains, LargeFinding)
    {
      DomainsMember(g, domains, n);
      var i :| 0 <= i < |domains| && domains[i].network == n;
      CollectMember(domains, LargeFinding, LargeFinding(DomainIn(g, n)).value);
    }
  }

  /** The coverage findings over the domains of `g`: one per network that has one. */
  lemma CoverageInGraph(g: Graph, domains: seq<Domain>)
    requires DomainsOf(g, domains)
    ensures forall x | x in Collect(domains, CoverageFinding) ::
      x.MissingCoverage? && x.network in NetworkSet(g) && CoverageFinding(DomainIn(g, x.network)) == Some(x)
    ensures forall n | n in NetworkSet(g) && CoverageFinding(DomainIn(g, n)).Some? ::
      CoverageFinding(DomainIn(g, n)).value in Collect(domains, CoverageFinding)
  {
    forall x | x in Collect(domains, CoverageFinding)
      ensures x.MissingCoverage? && x.network in NetworkSet(g) && CoverageFinding(DomainIn(g, x.network)) == Some(x)
    {
      CollectMember(domains, CoverageFinding, x);
      var d :| d in domains && CoverageFinding(d) == Some(x);
      var i :| 0 <= i < |domains| && domains[i] == d;
      DomainsMember(g, domains, d.network);
    }
    forall n | n in NetworkSet(g) && CoverageFinding(DomainIn(g, n)).Some?
      ensures CoverageFinding(DomainIn(g, n)).value in Collect(domains, CoverageFinding)
    {
      DomainsMember(g, domains, n);
      var i :| 0 <= i < |domains| && domains[i].network == n;
      CollectMember(domains, CoverageFinding, CoverageFinding(DomainIn(g, n)).value);
    }
  }

  /** What the overlap pass promises, restated over the graph. */
  lemma OverlapInGraph(g: Graph, domains: seq<Domain>, overlaps: seq<Issue>)
    requires DomainsOf(g, domains)
    requires forall x | x in overlaps :: x == OverlapOf(domains, RangeKey(x)) && |Sharing(domains, RangeKey(x))| > 1
    requires forall r :: (exists x | x in overlaps :: RangeKey(x) == r) <==> |Sharing(domains, r)| > 1
    ensures forall x | x in overlaps ::
      && x.Overlap? && Elems(x.affectedNetworks) == SharingSet(g, x.ipRange) && Distinct(x.affectedNetworks)
      && x.domainCount == |SharingSet(g, x.ipRange)| >= 2
    ensures forall r :: (exists x | x in overlaps :: x.Overlap? && x.ipRange == r) <==> |SharingSet(g, r)| >= 2
  {
    forall x | x in overlaps
      ensures && x.Overlap? && Elems(x.affectedNetworks) == SharingSet(g, x.ipRange) && Distinct(x.affectedNetworks)
              && x.domainCount == |SharingSet(g, x.ipRange)| >= 2
    {
      SharingInGraph(g, domains, RangeKey(x));
    }
    forall r ensures (exists x | x in overlaps :: x.Overlap? && x.ipRange == r) <==> |SharingSet(g, r)| >= 2 {
      SharingInGraph(g, domains, r);
      if exists x | x in overlaps :: RangeKey(x) == r {
        var x :| x in overlaps && RangeKey(x) == r;
        assert x.Overlap?;
      }
    }
  }

  /** The affected-node loop over the findings. */
  method AffectedNodes(issues: seq<Issue>) returns (affected: set<Node>)
    ensures forall n :: n in affected <==> exists x | x in issues :: n in IssueNodes(x)
  {
    affected := {};
    for i := 0 to |issues|
      invariant forall n :: n in affected <==> exists k :: 0 <= k < i && n in IssueNodes(issues[k])
    {
      var issue := issues[i];
      if issue.LargeDomain? || issue.MissingCoverage? {
        affected := affected + {issue.network};
      }
      if issue.Overlap? {
        affected := affected + Elems(issue.affectedNetworks);
      }
    }
    forall n | exists x | x in issues :: n in IssueNodes(x) ensures n in affected {
      var x :| x in issues && n in IssueNodes(x);
      var k :| 0 <= k < |issues| && issues[k] == x;
    }
  }

  /** `check_broadcast_domains`: the size findings, then the coverage findings, then the overlap
      findings. A size or coverage finding is reported for exactly the networks whose domains call
      for one, and is that domain's finding; an overlap finding is reported for exactly the ranges
      held by at least two networks' domains, once each, listing those networks; the affected nodes
      are the networks the findings name. */
  method CheckBroadcastDomains(g: Graph) returns (issues: seq<Issue>, affected: set<Node>)
    ensures forall x | x in issues && x.LargeDomain? :: x.network in NetworkSet(g) && LargeFinding(DomainIn(g, x.network)) == Some(x)
    ensures forall n | n in NetworkSet(g) && LargeFinding(DomainIn(g, n)).Some? :: LargeFinding(DomainIn(g, n)).value in issues
    ensures forall x | x in issues && x.MissingCoverage? ::
      x.network in NetworkSet(g) && CoverageFinding(DomainIn(g, x.network)) == Some(x)
    ensures forall n | n in NetworkSet(g) && CoverageFinding(DomainIn(g, n)).Some? :: CoverageFinding(DomainIn(g, n)).value in issues
    ensures forall x | x in issues && x.Overlap? ::
      && Elems(x.affectedNetworks) == SharingSet(g, x.ipRange) && Distinct(x.affectedNetworks)
      && x.domainCount == |SharingSet(g, x.ipRange)| >= 2
    ensures forall r :: (exists x | x in issues :: x.Overlap? && x.ipRange == r) <==> |SharingSet(g, r)| >= 2
    ensures forall i, j :: 0 <= i < j < |issues| && issues[i].Overlap? && issues[j].Overlap? ==>
      issues[i].ipRange != issues[j].ipRange
    ensures forall n :: n in affected <==> exists x | x in issues :: n in IssueNodes(x)
  {
    var networks := TypedSet(g, NetworkClass);
    var subnets := TypedSet(g, SubnetClass);
    var bbmds := TypedSet(g, BbmdClass);
    var domains := AnalyzeBroadcastDomains(g, networks, subnets, bbmds);
    var large := CheckLargeBroadcastDomains(domains);
    var missing := CheckMissingBbmdCoverage(domains);
    var placement := InefficientPlacement(domains, bbmds);
    var overlaps := CheckBroadcastDomainOverlap(domains);
    issues := large + missing + placement + overlaps;
    LargeInGraph(g, domains);
    CoverageInGraph(g, domains);
    OverlapInGraph(g, domains, overlaps);
    KindsApart(large, missing, overlaps);
    affected := AffectedNodes(issues);
  }

  /** The three kinds of finding in the concatenation. */
  lemma KindsApart(large: seq<Issue>, missing: seq<Issue>, overlaps: seq<Issue>)
    requires forall x | x in large :: x.LargeDomain?
    requires forall x | x in missing :: x.MissingCoverage?
    requires forall x | x in overlaps :: x.Overlap?
    requires forall i, j :: 0 <= i < j < |overlaps| ==> RangeKey(overlaps[i]) != RangeKey(overlaps[j])
    ensures forall x | x in large + missing + [] + overlaps :: (x.LargeDomain? ==> x in large) && (x.MissingCoverage? ==> x in missing) && (x.Overlap? ==> x in overlaps)
    ensures var all := large + missing + [] + overlaps;
      forall i, j :: 0 <= i < j < |all| && all[i].Overlap? && all[j].Overlap? ==> all[i].ipRange != all[j].ipRange
  {
    var all := large + missing + [] + overlaps;
    var k := |large| + |missing|;
    forall i | 0 <= i < k ensures !all[i].Overlap? {
      if i < |large| {
        assert all[i] == large[i] && large[i] in large;
      } else {
        assert all[i] == missing[i - |large|] && missing[i - |large|] in missing;
      }
    }
    forall i, j | 0 <= i < j < |all| && all[i].Overlap? && all[j].Overlap? ensures all[i].ipRange != all[j].ipRange {
      assert all[i] == overlaps[i - k] && all[j] == overlaps[j - k];
    }
  }
}
