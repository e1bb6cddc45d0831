/** graph_checks/subnet_mismatches.py: devices whose IP address lies outside the subnet they are
    declared to be on. */
module SubnetMismatches {
  import opened Wrappers
  import opened Seqs
  import opened Bacnet
  import opened Ipv4

  /** One entry of `subnet_info`: the subnet's address text, its label, and its network. */
  datatype SubnetRecord = SubnetRecord(address: string, name: string, network: Option<Node>)

  datatype Issue = Issue(
    issueType: string,
    severity: Severity,
    device: Node,
    deviceLabel: string,
    deviceInstance: Option<Node>,
    deviceAddress: string,
    subnet: Node,
    subnetLabel: string,
    subnetAddress: string)

  // ---------------------------------------------------------------------------------------------
  // Specification

  /** What the subnet loop records for `s`: its last address, last label (its URI without one) and
      last network; nothing when the last address is missing or empty. */
  function SubnetEntry(g: Graph, s: Node): Option<SubnetRecord> {
    match Last(g, s, SubnetAddress)
    case None => None
    case Some(address) =>
      if address == "" then None
      else Some(SubnetRecord(address, Last(g, s, RdfsLabel).GetOr(s), Last(g, s, SubnetOfNetwork)))
  }

  /** The entries recorded for the subnets in `subnets`. */
  function InfoOf(g: Graph, subnets: seq<Node>): map<Node, SubnetRecord> {
    map s | s in subnets && SubnetEntry(g, s).Some? :: SubnetEntry(g, s).value
  }

  /** `subnet_info` once every Subnet has been seen. */
  function SubnetInfo(g: Graph): map<Node, SubnetRecord> {
    InfoOf(g, OfType(g, SubnetClass))
  }

  /** A subnet is recorded iff it is typed Subnet and its last address is non-empty; its record
      holds that address, its last label or its URI, and its last network. */
  lemma SubnetInfoSpec(g: Graph, s: Node)
    ensures s in SubnetInfo(g) <==>
      Triple(s, RdfType, SubnetClass) in g && Has(g, s, SubnetAddress) && Last(g, s, SubnetAddress).value != ""
    ensures s in SubnetInfo(g) ==>
      && Triple(s, SubnetAddress, SubnetInfo(g)[s].address) in g
      && SubnetInfo(g)[s].address == Last(g, s, SubnetAddress).value
      && (if Has(g, s, RdfsLabel) then Triple(s, RdfsLabel, SubnetInfo(g)[s].name) in g
          else SubnetInfo(g)[s].name == s)
      && (SubnetInfo(g)[s].network.Some? <==> Has(g, s, SubnetOfNetwork))
      && (SubnetInfo(g)[s].network.Some? ==> Triple(s, SubnetOfNetwork, SubnetInfo(g)[s].network.value) in g)
  {
  }

  /** The per-device examination against the recorded subnets `info`: a finding when the device's
      last address and last subnet are non-empty, the subnet is recorded, and the address is not
      in the subnet's range. */
  function Examine(g: Graph, info: map<Node, SubnetRecord>, d: Node): Option<Issue> {
    var address, subnet := Last(g, d, Address), Last(g, d, DeviceOnSubnet);
    if address.None? || address.value == "" || subnet.None? || subnet.value == "" then None
    else if subnet.value !in info then None
    else
      var record := info[subnet.value];
      if IsIpInSubnet(address.value, record.address) then None
      else
        Some(Issue("subnet-mismatches", Medium, d, Last(g, d, RdfsLabel).GetOr(d), Last(g, d, DeviceInstance),
                   address.value, subnet.value, record.name, record.address))
  }

  function ExamineOf(g: Graph): Node -> Option<Issue> {
    d => Examine(g, SubnetInfo(g), d)
  }

  /** A device is reported iff its last address `a` and last subnet `s` are non-empty, `s` is a
      Subnet with a non-empty last address `c`, and `a` and `c` both parse with `a` outside the
      network `c` names (text that does not parse as IPv4 never fails). The finding carries those
      values and the subnet's label. */
  lemma ExamineSpec(g: Graph, d: Node)
    ensures var r := Examine(g, SubnetInfo(g), d);
      && (r.Some? <==>
            && Has(g, d, Address) && Last(g, d, Address).value != ""
            && Has(g, d, DeviceOnSubnet) && Last(g, d, DeviceOnSubnet).value != ""
            && var s := Last(g, d, DeviceOnSubnet).value;
               && Triple(s, RdfType, SubnetClass) in g
               && Has(g, s, SubnetAddress) && Last(g, s, SubnetAddress).value != ""
               && ParseAddress(Last(g, d, Address).value).Some?
               && ParseNetwork(Last(g, s, SubnetAddress).value).Some?
               && !Contains(ParseNetwork(Last(g, s, SubnetAddress).value).value, ParseAddress(Last(g, d, Address).value).value))
      && (r.Some? ==>
            && r.value.issueType == "subnet-mismatches" && r.value.severity == Medium
            && r.value.device == d && r.value.deviceInstance == Last(g, d, DeviceInstance)
            && r.value.deviceAddress == Last(g, d, Address).value
            && r.value.subnet == Last(g, d, DeviceOnSubnet).value
            && Triple(d, DeviceOnSubnet, r.value.subnet) in g
            && r.value.subnetAddress == Last(g, r.value.subnet, SubnetAddress).value
            && r.value.subnetLabel == SubnetInfo(g)[r.value.subnet].name)
  {
    ExamineFound(g, d);
    ExamineFields(g, d);
  }

  lemma ExamineFound(g: Graph, d: Node)
    ensures Examine(g, SubnetInfo(g), d).Some? <==>
      && Has(g, d, Address) && Last(g, d, Address).value != ""
      && Has(g, d, DeviceOnSubnet) && Last(g, d, DeviceOnSubnet).value != ""
      && var s := Last(g, d, DeviceOnSubnet).value;
         && Triple(s, RdfType, SubnetClass) in g
         && Has(g, s, SubnetAddress) && Last(g, s, SubnetAddress).value != ""
         && ParseAddress(Last(g, d, Address).value).Some?
         && ParseNetwork(Last(g, s, SubnetAddress).value).Some?
         && !Contains(ParseNetwork(Last(g, s, SubnetAddress).value).value, ParseAddress(Last(g, d, Address).value).value)
  {
    var info := SubnetInfo(g);
    ExamineIn(g, info, d);
    if Has(g, d, DeviceOnSubnet) {
      var s := Last(g, d, DeviceOnSubnet).value;
      SubnetInfoSpec(g, s);
      if s in info && Has(g, d, Address) {
        OutsideSubnet(Last(g, d, Address).value, info[s].address);
      }
    }
  }

  /** The examination against any recorded subnets finds a device iff its last address and last
      subnet are non-empty, the subnet is recorded, and the address is not in its range. */
  lemma ExamineIn(g: Graph, info: map<Node, SubnetRecord>, d: Node)
    ensures Examine(g, info, d).Some? <==>
      && Has(g, d, Address) && Last(g, d, Address).value != ""
      && Has(g, d, DeviceOnSubnet) && Last(g, d, DeviceOnSubnet).value != ""
      && Last(g, d, DeviceOnSubnet).value in info
      && !IsIpInSubnet(Last(g, d, Address).value, info[Last(g, d, DeviceOnSubnet).value].address)
  {
  }

  /** An address is outside a subnet's range iff both parse and the network does not hold it. */
  lemma OutsideSubnet(ip: string, cidr: string)
    ensures !IsIpInSubnet(ip, cidr) <==>
      ParseAddress(ip).Some? && ParseNetwork(cidr).Some? && !Contains(ParseNetwork(cidr).value, ParseAddress(ip).value)
  {
  }

  lemma ExamineFields(g: Graph, d: Node)
    ensures var r := Examine(g, SubnetInfo(g), d);
      r.Some? ==>
        && r.value.issueType == "subnet-mismatches" && r.value.severity == Medium
        && r.value.device == d && r.value.deviceInstance == Last(g, d, DeviceInstance)
        && r.value.deviceAddress == Last(g, d, Address).value
        && r.value.subnet == Last(g, d, DeviceOnSubnet).value
        && Triple(d, DeviceOnSubnet, r.value.subnet) in g
        && r.value.subnetAddress == Last(g, r.value.subnet, SubnetAddress).value
        && r.value.subnetLabel == SubnetInfo(g)[r.value.subnet].name
  {
    if Has(g, d, DeviceOnSubnet) {
      SubnetInfoSpec(g, Last(g, d, DeviceOnSubnet).value);
    }
  }

  // ---------------------------------------------------------------------------------------------
  // The analyzer

  /** A loop over `s` that has recorded `s[..i]` and now records `s[i]`. */
  lemma InfoStep(g: Graph, subnets: seq<Node>, i: nat)
    requires i < |subnets|
    ensures InfoOf(g, subnets[..i + 1]) ==
      match SubnetEntry(g, subnets[i])
      case None => InfoOf(g, subnets[..i])
      case Some(e) => InfoOf(g, subnets[..i])[subnets[i] := e]
  {
    assert subnets[..i + 1] == subnets[..i] + [subnets[i]];
  }

  /** The first loop: `subnet_info`. */
  method BuildSubnetInfo(g: Graph) returns (info: map<Node, SubnetRecord>)
    ensures info == SubnetInfo(g)
  {
    var subnets := OfType(g, SubnetClass);
    info := map[];
    for i := 0 to |subnets|
      invariant info == InfoOf(g, subnets[..i])
    {
      var subnet := subnets[i];
      InfoStep(g, subnets, i);
      var address := Last(g, subnet, SubnetAddress);
      var name := Last(g, subnet, RdfsLabel).GetOr(subnet);
      if address.Some? && address.value != "" {
        var record := SubnetRecord(address.value, name, None);
        var network := Last(g, subnet, SubnetOfNetwork);
        if network.Some? {
          record := record.(network := network);
        }
        info := info[subnet := record];
      }
    }
    assert subnets[..|subnets|] == subnets;
  }

  /** `check_subnet_mismatches`: one finding per Device whose address lies outside its recorded
      subnet, in graph order; the affected nodes are those devices. */
  method CheckSubnetMismatches(g: Graph) returns (issues: seq<Issue>, affected: seq<Node>)
    ensures issues == Collect(OfType(g, DeviceClass), ExamineOf(g))
    ensures affected == Filter(OfType(g, DeviceClass), Produces(ExamineOf(g)))
    ensures |issues| == |affected|
    ensures forall i :: 0 <= i < |issues| ==> Examine(g, SubnetInfo(g), affected[i]) == Some(issues[i])
    ensures forall d :: d in affected <==> Triple(d, RdfType, DeviceClass) in g && Examine(g, SubnetInfo(g), d).Some?
    ensures WellFormed(g) ==> Distinct(affected)
  {
    var info := BuildSubnetInfo(g);
    var devices := OfType(g, DeviceClass);
    issues, affected := [], [];
    for i := 0 to |devices|
      invariant issues == Collect(devices[..i], ExamineOf(g))
      invariant affected == Filter(devices[..i], Produces(ExamineOf(g)))
    {
      var device := devices[i];
      CollectStep(devices, i, ExamineOf(g));
      FilterStep(devices, i, Produces(ExamineOf(g)));
      var finding := Examine(g, info, device);
      if finding.Some? {
        issues := issues + [finding.value];
        affected := affected + [device];
      }
    }
    assert devices[..|devices|] == devices;
    CollectFilter(devices, ExamineOf(g));
    FilterSpec(devices, Produces(ExamineOf(g)));
    if WellFormed(g) {
      OfTypeDistinct(g, DeviceClass);
      FilterDistinct(devices, Produces(ExamineOf(g)));
    }
  }

  /** A device on a subnet whose address text is not IPv4 (a BACnet MS/TP address, say) is never
      reported. */
  lemma NonIpDevicePasses(g: Graph, d: Node)
    requires Last(g, d, Address) == Some("1001:5")
    ensures Examine(g, SubnetInfo(g), d).None?
  {
    var subnet := Last(g, d, DeviceOnSubnet);
    if subnet.Some? && subnet.value in SubnetInfo(g) {
      NonIpAddressesPass(SubnetInfo(g)[subnet.value].address);
    }
  }
}
