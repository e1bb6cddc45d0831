/** graph_checks/missing_properties.py: Devices lacking some of the seven essential BACnet
    properties, with a severity that depends on which and how many are missing. */
module MissingProperties {
  import opened Wrappers
  import opened Seqs
  import opened Text
  import opened Bacnet

  /** The essential properties, in the order they are checked and listed. */
  const Essentials: seq<string> := ["device-instance", "address", "vendor-id", "model-name",
                                    "device-name", "firmware-revision", "device-on-network"]

  /** The essentials whose absence makes a finding critical. */
  const Criticals: seq<string> := ["device-instance", "address", "vendor-id"]

  /** Devices whose label or URI contains this marker are not examined. */
  const SkipMarker: string := "Grasshopper"

  /** One entry of the verbose `all_properties` list. */
  datatype PropertyEntry = PropertyEntry(property: string, value: string, fullUri: string)

  datatype Issue = Issue(
    issueType: string,
    severity: Severity,
    device: Node,
    deviceName: string,
    deviceInstance: string,
    address: string,
    missingCount: nat,
    totalEssential: nat,
    missingProperties: seq<string>,
    presentProperties: seq<string>,
    allProperties: Option<seq<PropertyEntry>>)  // verbose mode only

  lemma EssentialsShape()
    ensures |Essentials| == 7 && |Criticals| == 3 && Distinct(Essentials)
    ensures forall c | c in Criticals :: c in Essentials
  {
  }

  // ---------------------------------------------------------------------------------------------
  // Sorting the essentials of one device

  /** `p in critical_properties`. */
  function IsCritical(): string -> bool {
    p => p in Criticals
  }

  /** Which essential property names a device has at least one value for. */
  function HasProperty(g: Graph, d: Node): string -> bool {
    p => Has(g, d, Ns + p)
  }

  function Present(has: string -> bool): seq<string> {
    Filter(Essentials, has)
  }

  function Absent(has: string -> bool): seq<string> {
    Filter(Essentials, Not(has))
  }

  function AbsentCritical(has: string -> bool): seq<string> {
    Filter(Absent(has), IsCritical())
  }

  /** Present and missing properties partition the essentials, each keeping list order. */
  lemma PartitionSpec(has: string -> bool)
    ensures |Present(has)| + |Absent(has)| == |Essentials| == 7
    ensures forall p | p in Essentials :: (p in Present(has) <==> has(p)) && (p in Absent(has) <==> !has(p))
    ensures forall p | p in Present(has) + Absent(has) :: p in Essentials
    ensures forall p | p in AbsentCritical(has) :: p in Criticals && !has(p)
    ensures forall p | p in Criticals && !has(p) :: p in AbsentCritical(has)
  {
    FilterPartition(Essentials, has);
    FilterSpec(Essentials, has);
    FilterSpec(Essentials, Not(has));
    FilterSpec(Absent(has), IsCritical());
  }

  /** The loop over the essentials: `present_properties`, `missing_properties` and
      `missing_critical` are appended in list order. */
  method SortProperties(has: string -> bool) returns (present: seq<string>, missing: seq<string>, missingCritical: seq<string>)
    ensures present == Present(has)
    ensures missing == Absent(has)
    ensures missingCritical == AbsentCritical(has)
  {
    present, missing, missingCritical := [], [], [];
    for i := 0 to |Essentials|
      invariant present == Filter(Essentials[..i], has)
      invariant missing == Filter(Essentials[..i], Not(has))
      invariant missingCritical == Filter(missing, IsCritical())
    {
      var prop := Essentials[i];
      FilterStep(Essentials, i, has);
      FilterStep(Essentials, i, Not(has));
      if has(prop) {
        present := present + [prop];
      } else {
        FilterAppend(missing, [prop], IsCritical());
        missing := missing + [prop];
        if prop in Criticals {
          missingCritical := missingCritical + [prop];
        }
      }
    }
    assert Essentials[..|Essentials|] == Essentials;
  }

  // ---------------------------------------------------------------------------------------------
  // Severity

  /** The severity ladder; `None` means the device has every essential property. */
  function Ladder(missingCritical: seq<string>, totalMissing: nat): (r: Option<Severity>)
  {
    if missingCritical != [] then Some(Critical)
    else if totalMissing >= 4 then Some(Major)
    else if totalMissing >= 2 then Some(Warning)
    else if totalMissing > 0 then Some(Info)
    else None
  }

  /** Each rung of the ladder, in both directions. */
  lemma LadderSpec(missingCritical: seq<string>, totalMissing: nat)
    ensures Ladder(missingCritical, totalMissing) == Some(Critical) <==> missingCritical != []
    ensures Ladder(missingCritical, totalMissing) == Some(Major) <==> missingCritical == [] && totalMissing >= 4
    ensures Ladder(missingCritical, totalMissing) == Some(Warning) <==> missingCritical == [] && 2 <= totalMissing < 4
    ensures Ladder(missingCritical, totalMissing) == Some(Info) <==> missingCritical == [] && totalMissing == 1
    ensures Ladder(missingCritical, totalMissing).None? <==> missingCritical == [] && totalMissing == 0
  {
  }

  /** Filters `Essentials` split after its first `k` entries. */
  lemma SplitEssentials(k: nat, p: string -> bool)
    requires k <= |Essentials|
    ensures Filter(Essentials, p) == Filter(Essentials[..k], p) + Filter(Essentials[k..], p)
  {
    assert Essentials == Essentials[..k] + Essentials[k..];
    FilterAppend(Essentials[..k], Essentials[k..], p);
  }

  /** With `k` leading essentials present and the rest absent, `Present` and `Absent` split the list
      at `k`. */
  lemma PrefixPresent(k: nat, has: string -> bool)
    requires k <= |Essentials|
    requires forall i :: 0 <= i < |Essentials| ==> (has(Essentials[i]) <==> i < k)
    ensures Present(has) == Essentials[..k]
    ensures Absent(has) == Essentials[k..]
  {
    SplitEssentials(k, has);
    FilterAll(Essentials[..k], has);
    FilterNone(Essentials[k..], has);
    SplitEssentials(k, Not(has));
    FilterNone(Essentials[..k], Not(has));
    FilterAll(Essentials[k..], Not(has));
  }

  /** A device with only its instance: critical, six missing. */
  lemma OnlyInstanceIsCritical()
    ensures var has := (p: string) => p == "device-instance";
      && Ladder(AbsentCritical(has), |Absent(has)|) == Some(Critical)
      && |Absent(has)| == 6 && Present(has) == ["device-instance"]
      && "address" in Absent(has) && "vendor-id" in Absent(has)
  {
    var has := (p: string) => p == "device-instance";
    PrefixPresent(1, has);
    assert Absent(has)[0] == "address" && Absent(has)[1] == "vendor-id";
    FilterSpec(Absent(has), IsCritical());
    assert IsCritical()("address");
  }

  /** A device with exactly the three critical properties: major, four missing. */
  lemma CriticalsOnlyIsMajor()
    ensures var has := (p: string) => p in Criticals;
      && Ladder(AbsentCritical(has), |Absent(has)|) == Some(Major)
      && |Absent(has)| == 4 && |Present(has)| == 3
  {
    var has := (p: string) => p in Criticals;
    PrefixPresent(3, has);
    FilterNone(Essentials[3..], IsCritical());
  }

  /** A device missing only the firmware revision and the network: warning, two missing. */
  lemma FivePresentIsWarning()
    ensures var has := (p: string) => p in Essentials[..5];
      && Ladder(AbsentCritical(has), |Absent(has)|) == Some(Warning)
      && |Absent(has)| == 2 && |Present(has)| == 5
  {
    var has := (p: string) => p in Essentials[..5];
    PrefixPresent(5, has);
    FilterNone(Essentials[5..], IsCritical());
  }

  // ---------------------------------------------------------------------------------------------
  // Verbose property listing

  /** The short property name shown in `all_properties`: the BACnet namespace removed, "label" and
      "type" for the RDF label and type, otherwise the text after the last '/' and then after the
      last '#'. */
  function PropertyName(pred: string): string {
    if StartsWith(pred, Ns) then RemoveAll(pred, Ns)
    else if EndsWith(pred, "#label") then "label"
    else if EndsWith(pred, "#type") then "type"
    else AfterLast(AfterLast(pred, '/'), '#')
  }

  /** A BACnet property URI is shown by its local name. */
  lemma PropertyNameBacnet(x: string)
    requires !Contains(x, Ns)
    ensures PropertyName(Ns + x) == x
  {
    assert StartsWith(Ns + x, Ns) by { assert (Ns + x)[..|Ns|] == Ns; }
    RemoveAllPrefix(Ns, x);
    RemoveAllAbsent(x, Ns);
  }

  /** A predicate outside the BACnet namespace with neither ending is shown by its last '/'- and
      '#'-free segment, which is never longer than the predicate. */
  lemma PropertyNameOther(pred: string)
    requires !StartsWith(pred, Ns) && !EndsWith(pred, "#label") && !EndsWith(pred, "#type")
    ensures var r := PropertyName(pred); '/' !in r && '#' !in r && EndsWith(pred, r)
  {
    var a := AfterLast(pred, '/');
    var r := AfterLast(a, '#');
    assert pred[|pred| - |a|..][|a| - |r|..] == pred[|pred| - |r|..];
  }

  function EntryOf(t: Triple): PropertyEntry {
    PropertyEntry(PropertyName(t.p), t.o, t.p)
  }

  // ---------------------------------------------------------------------------------------------
  // The analyzer

  /** The name the finding reports: the first non-empty label, otherwise the URI. */
  function NameOf(g: Graph, d: Node): string {
    FirstOr(g, d, RdfsLabel, d)
  }

  predicate Skipped(g: Graph, d: Node) {
    Contains(NameOf(g, d), SkipMarker) || Contains(d, SkipMarker)
  }

  /** The body of the per-device loop. */
  function Examine(g: Graph, d: Node, verbose: bool): (r: Option<Issue>)
  {
    if Skipped(g, d) then None
    else
      var has := HasProperty(g, d);
      match Ladder(AbsentCritical(has), |Absent(has)|)
      case None => None
      case Some(severity) =>
        Some(Issue("missing-properties", severity, d, NameOf(g, d),
                   FirstOr(g, d, DeviceInstance, "unknown"), FirstOr(g, d, Address, "unknown"),
                   |Absent(has)|, |Essentials|, Absent(has), Present(has),
                   if verbose then Some(Map(About(g, d), EntryOf)) else None))
  }

  /** A device is reported iff it is not skipped and misses at least one essential; the counts
      add up to seven and the severity follows the ladder. Which properties are missing, and which
      critical ones, is what `PartitionSpec` states about `Absent` and `AbsentCritical`. */
  lemma ExamineSpec(g: Graph, d: Node, verbose: bool)
    ensures var r := Examine(g, d, verbose); var has := HasProperty(g, d);
      && (r.Some? <==> !Skipped(g, d) && Absent(has) != [])
      && (Contains(d, SkipMarker) ==> r.None?)
      && (r.Some? ==> r.value.issueType == "missing-properties" && r.value.device == d)
      && (r.Some? ==> r.value.deviceName == NameOf(g, d))
      && (r.Some? ==> r.value.missingProperties == Absent(has) && r.value.presentProperties == Present(has))
      && (r.Some? ==> r.value.missingCount == |r.value.missingProperties| > 0)
      && (r.Some? ==> r.value.missingCount + |r.value.presentProperties| == r.value.totalEssential == 7)
      && (r.Some? ==> (r.value.severity == Critical <==> AbsentCritical(has) != []))
      && (r.Some? ==> r.value.severity == Ladder(AbsentCritical(has), r.value.missingCount).value)
      && (r.Some? ==> (r.value.allProperties.Some? <==> verbose))
  {
    var has := HasProperty(g, d);
    PartitionSpec(has);
    LadderSpec(AbsentCritical(has), |Absent(has)|);
  }

  function ExamineOf(g: Graph, verbose: bool): Node -> Option<Issue> {
    d => Examine(g, d, verbose)
  }

  /** `check_missing_properties`: at most one finding per Device, in graph order. The
      affected-triples list the source also returns is always empty. */
  method CheckMissingProperties(g: Graph, verbose: bool)
    returns (issues: seq<Issue>, affectedTriples: seq<Triple>, affected: seq<Node>)
    ensures issues == Collect(OfType(g, DeviceClass), ExamineOf(g, verbose))
    ensures affected == Filter(OfType(g, DeviceClass), Produces(ExamineOf(g, verbose)))
    ensures affectedTriples == []
    ensures |issues| == |affected|
    ensures forall i :: 0 <= i < |issues| ==> Examine(g, affected[i], verbose) == Some(issues[i])
    ensures forall d :: d in affected <==> Triple(d, RdfType, DeviceClass) in g && Examine(g, d, verbose).Some?
    ensures WellFormed(g) ==> Distinct(affected)
  {
    var devices := OfType(g, DeviceClass);
    issues, affectedTriples, affected := [], [], [];
    for i := 0 to |devices|
      invariant issues == Collect(devices[..i], ExamineOf(g, verbose))
      invariant affected == Filter(devices[..i], Produces(ExamineOf(g, verbose)))
    {
      var device := devices[i];
      CollectStep(devices, i, ExamineOf(g, verbose));
      FilterStep(devices, i, Produces(ExamineOf(g, verbose)));
      var name := FirstOr(g, device, RdfsLabel, device);
      if Contains(name, SkipMarker) || Contains(device, SkipMarker) {
        continue;
      }
      var instance := FirstOr(g, device, DeviceInstance, "unknown");
      var address := FirstOr(g, device, Address, "unknown");
      var present, missing, missingCritical := SortProperties(HasProperty(g, device));
      var severity := Ladder(missingCritical, |missing|);
      if severity.None? {
        continue;
      }
      var all := if verbose then Some(Map(About(g, device), EntryOf)) else None;
      issues := issues + [Issue("missing-properties", severity.value, device, name, instance, address,
                                |missing|, |Essentials|, missing, present, all)];
      affected := affected + [device];
    }
    assert devices[..|devices|] == devices;
    CollectFilter(devices, ExamineOf(g, verbose));
    FilterSpec(devices, Produces(ExamineOf(g, verbose)));
    if WellFormed(g) {
      OfTypeDistinct(g, DeviceClass);
      FilterDistinct(devices, Produces(ExamineOf(g, verbose)));
    }
  }
}
