/** graph_checks/invalid_device_ranges.py: Device instances that are not integers or fall outside
    the BACnet instance range 0..4194303. */
module InvalidDeviceRanges {
  import opened Wrappers
  import opened Seqs
  import opened Text
  import opened Bacnet

  const MinDeviceId: int := 0
  const MaxDeviceId: int := 4194303  // 0x3FFFFF, the largest 22-bit instance number

  /** How the first device-instance value of a device fares. */
  datatype Verdict = Valid | NotANumber(raw: string) | OutOfRange(id: int)

  /** What the finding stores under `device_instance`: the raw text when `int()` failed, the
      parsed integer otherwise. */
  datatype InstanceValue = Raw(text: string) | Parsed(id: int)

  datatype Issue = Issue(
    issueType: string,
    severity: Severity,
    device: Node,
    deviceLabel: string,
    deviceInstance: InstanceValue,
    address: string,
    description: string)

  /** `int(device_instance)` followed by the closed range test. */
  function ClassifyInstance(s: string): (v: Verdict)
    ensures v.NotANumber? <==> ParseInt(s).None?
    ensures v.NotANumber? ==> v.raw == s
    ensures v.OutOfRange? <==> ParseInt(s).Some? && !(MinDeviceId <= ParseInt(s).value <= MaxDeviceId)
    ensures v.OutOfRange? ==> v.id == ParseInt(s).value
  {
    match ParseInt(s)
    case None => NotANumber(s)
    case Some(n) => if n < MinDeviceId || n > MaxDeviceId then OutOfRange(n) else Valid
  }

  /** The decimal text of the largest instance number and of the one after it. */
  lemma ShowMaxDeviceId()
    ensures Show(4194303) == "4194303" && Show(4194304) == "4194304"
  {
    assert ShowNat(41) == "41";
    assert ShowNat(419) == "419";
    assert ShowNat(4194) == "4194";
    assert ShowNat(41943) == "41943";
    assert ShowNat(419430) == "419430";
    assert ShowNat(4194303) == "4194303";
    assert ShowNat(4194304) == "4194304";
  }

  /** The range is closed: both ends are accepted and the integers just outside are flagged. */
  lemma RangeBoundaries()
    ensures ClassifyInstance("0") == Valid
    ensures ClassifyInstance("4194303") == Valid
    ensures ClassifyInstance("-1") == OutOfRange(-1)
    ensures ClassifyInstance("4194304") == OutOfRange(4194304)
  {
    ParseShow(0);
    assert Show(0) == "0";
    ParseShow(-1);
    assert Show(-1) == "-1";
    ShowMaxDeviceId();
    ParseShow(4194303);
    ParseShow(4194304);
  }

  /** Text that is not an integer literal is reported with its raw value. */
  lemma LettersNotANumber()
    ensures ClassifyInstance("abc123") == NotANumber("abc123")
  {
    ParseIntRejects("abc123", 0);
  }

  /** A decimal fraction is not an integer literal either. */
  lemma FractionNotANumber()
    ensures ClassifyInstance("123.456") == NotANumber("123.456")
  {
    ParseIntRejects("123.456", 3);
  }

  /** The first device-instance value, when present and non-empty. */
  function InstanceOf(g: Graph, d: Node): (r: Option<string>)
    ensures r.Some? ==> r.value != "" && r == First(g, d, DeviceInstance)
    ensures r.None? ==> !Has(g, d, DeviceInstance) || First(g, d, DeviceInstance).value == ""
  {
    match First(g, d, DeviceInstance)
    case Some(v) => if v == "" then None else Some(v)
    case None => None
  }

  /** The body of the per-device loop: `None` for a skipped or valid device. */
  function Examine(g: Graph, d: Node): (r: Option<Issue>)
  {
    match InstanceOf(g, d)
    case None => None
    case Some(s) =>
      var deviceLabel := DeviceLabel(g, d);
      var address := FirstOr(g, d, Address, "Unknown");
      match ClassifyInstance(s)
      case Valid => None
      case NotANumber(raw) =>
        Some(Issue("invalid-device-ranges", Critical, d, deviceLabel, Raw(raw), address, "not a valid number"))
      case OutOfRange(n) =>
        Some(Issue("invalid-device-ranges", Critical, d, deviceLabel, Parsed(n), address, "outside valid BACnet range"))
  }

  /** A device is reported iff its first instance value is present, non-empty and not a valid
      instance number; the finding keeps the raw text when `int()` fails and the parsed integer when
      it is out of range. */
  lemma ExamineSpec(g: Graph, d: Node)
    ensures var r := Examine(g, d);
      && (r.Some? <==> InstanceOf(g, d).Some? && !ClassifyInstance(InstanceOf(g, d).value).Valid?)
      && (r.Some? ==> r.value.issueType == "invalid-device-ranges" && r.value.severity == Critical)
      && (r.Some? ==> r.value.device == d && r.value.deviceLabel == DeviceLabel(g, d))
      && (r.Some? ==> r.value.address == FirstOr(g, d, Address, "Unknown"))
      && (r.Some? ==> (r.value.deviceInstance.Raw? <==> ParseInt(InstanceOf(g, d).value).None?))
      && (r.Some? && r.value.deviceInstance.Raw? ==> r.value.deviceInstance.text == InstanceOf(g, d).value)
      && (r.Some? && r.value.deviceInstance.Parsed? ==>
            Some(r.value.deviceInstance.id) == ParseInt(InstanceOf(g, d).value)
            && !(MinDeviceId <= r.value.deviceInstance.id <= MaxDeviceId))
  {
  }

  function ExamineOf(g: Graph): Node -> Option<Issue> {
    d => Examine(g, d)
  }

  /** `check_invalid_device_ranges`: at most one finding per Device, from its first instance value
      only; devices without one are skipped. */
  method CheckInvalidDeviceRanges(g: Graph) returns (issues: seq<Issue>, affected: seq<Node>)
    ensures issues == Collect(OfType(g, DeviceClass), ExamineOf(g))
    ensures affected == Filter(OfType(g, DeviceClass), Produces(ExamineOf(g)))
    ensures |issues| == |affected|
    ensures forall i :: 0 <= i < |issues| ==> Examine(g, affected[i]) == Some(issues[i])
    ensures forall d :: d in affected <==> Triple(d, RdfType, DeviceClass) in g && Examine(g, d).Some?
    ensures WellFormed(g) ==> Distinct(affected)
  {
    var devices := OfType(g, DeviceClass);
    issues, affected := [], [];
    for i := 0 to |devices|
      invariant issues == Collect(devices[..i], ExamineOf(g))
      invariant affected == Filter(devices[..i], Produces(ExamineOf(g)))
    {
      var device := devices[i];
      CollectStep(devices, i, ExamineOf(g));
      FilterStep(devices, i, Produces(ExamineOf(g)));
      var finding := Examine(g, device);
      if finding.Some? {
        issues := issues + [finding.value];
        affected := affected + [device];
      }
    }
    assert devices[..|devices|] == devices;
    CollectFilter(devices, ExamineOf(g));
    FilterSpec(devices, Produces(ExamineOf(g)));
    if WellFormed(g) {
      OfTypeDistinct(g, DeviceClass);
      FilterDistinct(devices, Produces(ExamineOf(g)));
    }
  }
}
