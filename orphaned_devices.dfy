/** graph_checks/orphaned_devices.py: Device-typed subjects attached to neither a network nor a
    subnet. */
module OrphanedDevices {
  import opened Wrappers
  import opened Seqs
  import opened Bacnet

  datatype Issue = Issue(
    issueType: string,
    severity: Severity,
    device: Node,
    deviceLabel: string,
    deviceInstance: string,
    address: string,
    triples: Option<seq<Triple>>)  // every triple about the device, in verbose mode only

  /** A device is orphaned when it has no device-on-network and no device-on-subnet value. */
  predicate IsOrphan(g: Graph, d: Node) {
    !Has(g, d, DeviceOnNetwork) && !Has(g, d, DeviceOnSubnet)
  }

  function OrphanTest(g: Graph): Node -> bool {
    d => IsOrphan(g, d)
  }

  /** The finding for an orphaned device. The label falls back to the URI and the instance and
      address to "unknown" when the first value is missing or empty. */
  function IssueFor(g: Graph, d: Node, verbose: bool): (r: Issue)
  {
    Issue("orphaned-device", Critical, d,
          FirstOr(g, d, RdfsLabel, d),
          FirstOr(g, d, DeviceInstance, "unknown"),
          FirstOr(g, d, Address, "unknown"),
          if verbose then Some(About(g, d)) else None)
  }

  /** Every finding is critical; a missing label falls back to the URI and a missing instance or
      address to "unknown"; the triples are attached exactly in verbose mode. */
  lemma IssueForSpec(g: Graph, d: Node, verbose: bool)
    ensures var r := IssueFor(g, d, verbose);
      && r.issueType == "orphaned-device" && r.severity == Critical && r.device == d
      && (!Has(g, d, RdfsLabel) ==> r.deviceLabel == d)
      && (!Has(g, d, DeviceInstance) ==> r.deviceInstance == "unknown")
      && (!Has(g, d, Address) ==> r.address == "unknown")
      && (r.deviceLabel == d || r.deviceLabel == First(g, d, RdfsLabel).value)
      && (r.deviceInstance == "unknown" || r.deviceInstance == First(g, d, DeviceInstance).value)
      && (r.address == "unknown" || r.address == First(g, d, Address).value)
      && (r.triples.Some? <==> verbose)
      && (verbose ==> r.triples.value == About(g, d))
  {
  }

  function IssueOf(g: Graph, verbose: bool): Node -> Issue {
    d => IssueFor(g, d, verbose)
  }

  /** `check_orphaned_devices`: one finding and one affected node per orphaned Device, in graph
      order. */
  method CheckOrphanedDevices(g: Graph, verbose: bool) returns (issues: seq<Issue>, affected: seq<Node>)
    ensures affected == Filter(OfType(g, DeviceClass), OrphanTest(g))
    ensures issues == Map(affected, IssueOf(g, verbose))
    ensures forall d :: d in affected <==> Triple(d, RdfType, DeviceClass) in g && IsOrphan(g, d)
    ensures forall i :: 0 <= i < |issues| ==> issues[i].severity == Critical && issues[i].device == affected[i]
    ensures WellFormed(g) ==> Distinct(affected)
  {
    var devices := OfType(g, DeviceClass);
    issues, affected := [], [];
    for i := 0 to |devices|
      invariant affected == Filter(devices[..i], OrphanTest(g))
      invariant issues == Map(affected, IssueOf(g, verbose))
    {
      var device := devices[i];
      FilterStep(devices, i, OrphanTest(g));
      var deviceLabel := FirstOr(g, device, RdfsLabel, device);
      var instance := FirstOr(g, device, DeviceInstance, "unknown");
      var address := FirstOr(g, device, Address, "unknown");
      var hasNetwork := Objects(g, device, DeviceOnNetwork) != [];
      var hasSubnet := Objects(g, device, DeviceOnSubnet) != [];
      assert OrphanTest(g)(device) == (!hasNetwork && !hasSubnet);
      if !hasNetwork && !hasSubnet {
        MapSnoc(affected, device, IssueOf(g, verbose));
        var triples := if verbose then Some(About(g, device)) else None;
        issues := issues + [Issue("orphaned-device", Critical, device, deviceLabel, instance, address, triples)];
        affected := affected + [device];
      }
    }
    assert devices[..|devices|] == devices;
    OrphansSpec(g, verbose, affected, issues);
  }

  /** What the orphans and their findings are, once collected. */
  lemma OrphansSpec(g: Graph, verbose: bool, affected: seq<Node>, issues: seq<Issue>)
    requires affected == Filter(OfType(g, DeviceClass), OrphanTest(g))
    requires issues == Map(affected, IssueOf(g, verbose))
    ensures forall d :: d in affected <==> Triple(d, RdfType, DeviceClass) in g && IsOrphan(g, d)
    ensures forall i :: 0 <= i < |issues| ==> issues[i].severity == Critical && issues[i].device == affected[i]
    ensures WellFormed(g) ==> Distinct(affected)
  {
    FilterSpec(OfType(g, DeviceClass), OrphanTest(g));
    if WellFormed(g) {
      OfTypeDistinct(g, DeviceClass);
      FilterDistinct(OfType(g, DeviceClass), OrphanTest(g));
    }
  }
}
