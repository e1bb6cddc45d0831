/** graph_checks/missing_vendor_ids.py: Devices whose first vendor-id value is missing, empty, not an
    integer, negative or zero. */
module MissingVendorIds {
  import opened Wrappers
  import opened Seqs
  import opened Text
  import opened Bacnet

  /** Why a vendor id is rejected; each reason has its own description text. */
  datatype Problem =
    | Missing      // "missing vendor-id property"
    | NotNumeric   // "invalid vendor-id format"
    | Negative     // "must be positive"
    | Reserved     // "reserved value"

  datatype Issue = Issue(
    typeKey: string,          // the dictionary key the issue type is stored under
    issueType: string,
    severity: Severity,
    device: Node,
    deviceLabel: string,
    deviceInstance: string,
    address: string,
    vendorId: Option<string>,
    problem: Problem)

  /** The ladder applied to the first vendor-id value: `None` when it is a positive integer. The
      value goes to `int()` as it is, without removing any URI prefix. */
  function Classify(v: Option<string>): (r: Option<Problem>)
  {
    if v.None? || v.value == "" then Some(Missing)
    else match ParseInt(v.value)
      case None => Some(NotNumeric)
      case Some(n) => if n < 0 then Some(Negative) else if n == 0 then Some(Reserved) else None
  }

  /** Each rung of the ladder, in both directions. */
  lemma ClassifySpec(v: Option<string>)
    ensures Classify(v) == Some(Missing) <==> v.None? || v.value == ""
    ensures Classify(v) == Some(NotNumeric) <==> v.Some? && v.value != "" && ParseInt(v.value).None?
    ensures Classify(v) == Some(Negative) <==> v.Some? && ParseInt(v.value).Some? && ParseInt(v.value).value < 0
    ensures Classify(v) == Some(Reserved) <==> v.Some? && ParseInt(v.value) == Some(0)
    ensures Classify(v).None? <==> v.Some? && ParseInt(v.value).Some? && ParseInt(v.value).value > 0
  {
    if v.Some? && v.value == "" {
      assert Strip(v.value) == "";
    }
  }

  /** "0" is the reserved vendor id. */
  lemma ZeroIsReserved()
    ensures Classify(Some("0")) == Some(Reserved)
  {
    ParseShow(0);
    assert Show(0) == "0";
  }

  /** "-1" is rejected as negative. */
  lemma MinusOneIsNegative()
    ensures Classify(Some("-1")) == Some(Negative)
  {
    ParseShow(-1);
    assert Show(-1) == "-1";
  }

  /** A large positive id such as "65535" is accepted. */
  lemma LargeIdAccepted()
    ensures Classify(Some("65535")) == None
  {
    var v := "65535";
    assert IsDigits(v);
    ParseIntDigits(v);
    assert v[..1][..0] == [] && v[..2][..1] == v[..1] && v[..3][..2] == v[..2];
    assert v[..4][..3] == v[..3] && v[..5][..4] == v[..4] && v[..5] == v;
    assert DigitsValue(v[..1]) == 6;
    assert DigitsValue(v[..2]) == 65;
    assert DigitsValue(v[..3]) == 655;
    assert DigitsValue(v[..4]) == 6553;
    assert DigitsValue(v[..5]) == 65535;
  }

  /** "INVALID" and a URI-style id such as "bacnet://vendor/5" are both not numeric: no prefix is
      removed before the conversion. */
  lemma TextIsNotNumeric()
    ensures Classify(Some("INVALID")) == Some(NotNumeric)
    ensures Classify(Some("bacnet://vendor/5")) == Some(NotNumeric)
  {
    ParseIntRejects("INVALID", 0);
    ParseIntRejects("bacnet://vendor/5", 0);
  }

  /** The body of the per-device loop. */
  function Examine(g: Graph, d: Node): (r: Option<Issue>)
  {
    var vendor := First(g, d, VendorId);
    match Classify(vendor)
    case None => None
    case Some(problem) =>
      Some(Issue(
        if problem == Missing then "type" else "issue_type",
        "missing-vendor-ids", Medium, d,
        DeviceLabel(g, d),
        FirstOr(g, d, DeviceInstance, "Unknown"),
        FirstOr(g, d, Address, "Unknown"),
        if problem == Missing then None else vendor,
        problem))
  }

  /** A device is reported iff its first vendor id is rejected by the ladder; the finding is always
      medium and carries the raw value except when it is missing. */
  lemma ExamineSpec(g: Graph, d: Node)
    ensures var r := Examine(g, d);
      && (r.Some? <==> Classify(First(g, d, VendorId)).Some?)
      && (r.Some? ==> r.value.problem == Classify(First(g, d, VendorId)).value)
      && (r.Some? ==> r.value.issueType == "missing-vendor-ids" && r.value.severity == Medium)
      && (r.Some? ==> r.value.device == d && r.value.deviceLabel == DeviceLabel(g, d))
      && (r.Some? ==> r.value.deviceInstance == FirstOr(g, d, DeviceInstance, "Unknown"))
      && (r.Some? ==> r.value.address == FirstOr(g, d, Address, "Unknown"))
      && (r.Some? ==> (r.value.vendorId.None? <==> r.value.problem == Missing))
      && (r.Some? && r.value.vendorId.Some? ==> r.value.vendorId == First(g, d, VendorId))
  {
  }

  function ExamineOf(g: Graph): Node -> Option<Issue> {
    d => Examine(g, d)
  }

  /** `check_missing_vendor_ids`: at most one medium finding per Device, from its first vendor-id
      value only. */
  method CheckMissingVendorIds(g: Graph) returns (issues: seq<Issue>, affected: seq<Node>)
    ensures issues == Collect(OfType(g, DeviceClass), ExamineOf(g))
    ensures affected == Filter(OfType(g, DeviceClass), Produces(ExamineOf(g)))
    ensures |issues| == |affected|
    ensures forall i :: 0 <= i < |issues| ==> Examine(g, affected[i]) == Some(issues[i])
    ensures forall d :: d in affected <==> Triple(d, RdfType, DeviceClass) in g && Examine(g, d).Some?
    ensures WellFormed(g) ==> Distinct(affected)
  {
    var devices := OfType(g, DeviceClass);
    issues, affected := [], [];
    for i := 0 to |devices|
      invariant issues == Collect(devices[..i], ExamineOf(g))
      invariant affected == Filter(devices[..i], Produces(ExamineOf(g)))
    {
      var device := devices[i];
      CollectStep(devices, i, ExamineOf(g));
      FilterStep(devices, i, Produces(ExamineOf(g)));
      var finding := Examine(g, device);
      if finding.Some? {
        issues := issues + [finding.value];
        affected := affected + [device];
      }
    }
    assert devices[..|devices|] == devices;
    CollectFilter(devices, ExamineOf(g));
    FilterSpec(devices, Produces(ExamineOf(g)));
    if WellFormed(g) {
      OfTypeDistinct(g, DeviceClass);
      FilterDistinct(devices, Produces(ExamineOf(g)));
    }
  }
}
