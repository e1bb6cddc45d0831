/** The RDF triple store the analyzers read, the BACnet vocabulary they query and the severities
    they report. A graph is a sequence of triples without repetitions (an rdflib graph is a set);
    a pattern query such as `graph.triples((s, p, None))` yields the matching triples in sequence
    order. Nodes are compared by their string form. */
module Bacnet {
  import opened Wrappers
  import opened Seqs

  type Node = string

  datatype Triple = Triple(s: Node, p: Node, o: Node)

  type Graph = seq<Triple>

  /** An rdflib graph holds each triple once. */
  predicate WellFormed(g: Graph) {
    Distinct(g)
  }

  // ---------------------------------------------------------------------------------------------
  // Vocabulary (graph_checks/utils.py:11 and the per-analyzer constants)

  const Ns: string := "http://data.ashrae.org/bacnet/2020#"
  const RdfType: Node := "http://www.w3.org/1999/02/22-rdf-syntax-ns#type"
  const RdfsLabel: Node := "http://www.w3.org/2000/01/rdf-schema#label"

  const DeviceClass: Node := Ns + "Device"
  const RouterClass: Node := Ns + "Router"
  const BbmdClass: Node := Ns + "BBMD"
  const NetworkClass: Node := Ns + "BACnetNetwork"
  const SubnetClass: Node := Ns + "Subnet"

  const DeviceInstance: Node := Ns + "device-instance"
  const Address: Node := Ns + "address"
  const VendorId: Node := Ns + "vendor-id"
  const ModelName: Node := Ns + "model-name"
  const DeviceName: Node := Ns + "device-name"
  const FirmwareRevision: Node := Ns + "firmware-revision"
  const DeviceOnNetwork: Node := Ns + "device-on-network"
  const DeviceOnSubnet: Node := Ns + "device-on-subnet"
  const SubnetOfNetwork: Node := Ns + "subnet-of-network"
  const ServesNetwork: Node := Ns + "serves-network"
  const BbmdBroadcastDomain: Node := Ns + "bbmd-broadcast-domain"
  const BdtEntry: Node := Ns + "bdt-entry"
  const BbmdOnSubnet: Node := Ns + "bbmd-on-subnet"
  const NetworkType: Node := Ns + "network-type"
  const SubnetAddress: Node := Ns + "subnet-address"

  /** The severities the analyzers attach to their findings. */
  datatype Severity = Info | Warning | Medium | Major | High | Critical | Error

  // ---------------------------------------------------------------------------------------------
  // Pattern queries

  /** The objects of `(s, p, ?)`, in graph order (`graph.objects(s, p)`). */
  function Objects(g: Graph, s: Node, p: Node): (r: seq<Node>)
    ensures forall o | o in r :: Triple(s, p, o) in g
    ensures forall o | Triple(s, p, o) in g :: o in r
  {
    if g == [] then []
    else
      var t := g[|g| - 1];
      Objects(g[..|g| - 1], s, p) + (if t.s == s && t.p == p then [t.o] else [])
  }

  /** The subjects of `(?, p, o)`, in graph order (`graph.subjects(p, o)`). */
  function Subjects(g: Graph, p: Node, o: Node): (r: seq<Node>)
    ensures forall s | s in r :: Triple(s, p, o) in g
    ensures forall s | Triple(s, p, o) in g :: s in r
  {
    if g == [] then []
    else
      var t := g[|g| - 1];
      Subjects(g[..|g| - 1], p, o) + (if t.p == p && t.o == o then [t.s] else [])
  }

  /** The subjects typed `cls`, in graph order. */
  function OfType(g: Graph, cls: Node): (r: seq<Node>)
    ensures forall s | s in r :: Triple(s, RdfType, cls) in g
    ensures forall s | Triple(s, RdfType, cls) in g :: s in r
  {
    Subjects(g, RdfType, cls)
  }

  /** Every triple about `s` (`graph.triples((s, None, None))`), in graph order. */
  function About(g: Graph, s: Node): (r: seq<Triple>)
    ensures forall t | t in r :: t in g && t.s == s
    ensures forall t | t in g && t.s == s :: t in r
  {
    FilterSpec(g, (t: Triple) => t.s == s);
    Filter(g, (t: Triple) => t.s == s)
  }

  /** `s` has at least one `p` value (`bool(list(graph.triples((s, p, None))))`). */
  predicate Has(g: Graph, s: Node, p: Node) {
    Objects(g, s, p) != []
  }

  /** The value a `for ... : x = value; break` loop leaves: the first `p` value of `s`. */
  function First(g: Graph, s: Node, p: Node): (r: Option<Node>)
    ensures r.Some? <==> Has(g, s, p)
    ensures r.Some? ==> Triple(s, p, r.value) in g
  {
    var os := Objects(g, s, p);
    if os == [] then None else Some(os[0])
  }

  /** The value a `for ... : x = value` loop without `break` leaves: the last `p` value of `s`. */
  function Last(g: Graph, s: Node, p: Node): (r: Option<Node>)
    ensures r.Some? <==> Has(g, s, p)
    ensures r.Some? ==> Triple(s, p, r.value) in g
  {
    var os := Objects(g, s, p);
    if os == [] then None else Some(os[|os| - 1])
  }

  /** The first value, with Python's `if not x: x = default` applied (an empty string is falsy). */
  function FirstOr(g: Graph, s: Node, p: Node, default: string): (r: string)
    ensures r == default || Triple(s, p, r) in g
    ensures !Has(g, s, p) ==> r == default
  {
    match First(g, s, p)
    case Some(v) => if v == "" then default else v
    case None => default
  }

  /** The label the device analyzers report: the first label, when it is non-empty; otherwise
      "Device " followed by the first device instance, when it is non-empty, or by "Unknown". */
  function DeviceLabel(g: Graph, d: Node): (r: string)
    ensures Has(g, d, RdfsLabel) && First(g, d, RdfsLabel).value != "" ==> r == First(g, d, RdfsLabel).value
    ensures !Has(g, d, RdfsLabel) && !Has(g, d, DeviceInstance) ==> r == "Device Unknown"
    ensures !Has(g, d, RdfsLabel) && Has(g, d, DeviceInstance) && First(g, d, DeviceInstance).value != "" ==>
      r == "Device " + First(g, d, DeviceInstance).value
  {
    FirstOr(g, d, RdfsLabel, "Device " + FirstOr(g, d, DeviceInstance, "Unknown"))
  }

  function ObjectsOf(g: Graph, p: Node): Node -> seq<Node> {
    m => Objects(g, m, p)
  }

  /** The objects of `(s, p1, ?)` followed by `(?, p2, ?)`: the subnet-of-network values of each
      subnet a node is on, and similar two-step walks (two nested `graph.triples` loops). */
  function Via(g: Graph, s: Node, p1: Node, p2: Node): seq<Node> {
    FlatMap(Objects(g, s, p1), ObjectsOf(g, p2))
  }

  /** The two-step walk reaches exactly the objects of some intermediate node. */
  lemma ViaSpec(g: Graph, s: Node, p1: Node, p2: Node, o: Node)
    ensures o in Via(g, s, p1, p2) <==> exists m :: Triple(s, p1, m) in g && Triple(m, p2, o) in g
  {
    FlatMapMember(Objects(g, s, p1), ObjectsOf(g, p2), o);
  }

  // ---------------------------------------------------------------------------------------------
  // Query results inherit the graph's lack of repetitions

  lemma {:induction false} ObjectsDistinct(g: Graph, s: Node, p: Node)
    requires WellFormed(g)
    ensures Distinct(Objects(g, s, p))
  {
    if g != [] {
      var g' := g[..|g| - 1];
      var t := g[|g| - 1];
      ObjectsDistinct(g', s, p);
      if t.s == s && t.p == p {
        assert t !in g';
        assert t.o !in Objects(g', s, p);
      }
    }
  }

  lemma {:induction false} SubjectsDistinct(g: Graph, p: Node, o: Node)
    requires WellFormed(g)
    ensures Distinct(Subjects(g, p, o))
  {
    if g != [] {
      var g' := g[..|g| - 1];
      var t := g[|g| - 1];
      SubjectsDistinct(g', p, o);
      if t.p == p && t.o == o {
        assert t !in g';
        assert t.s !in Subjects(g', p, o);
      }
    }
  }

  /** Each typed subject is listed once, so per-subject loops visit each subject once. */
  lemma OfTypeDistinct(g: Graph, cls: Node)
    requires WellFormed(g)
    ensures Distinct(OfType(g, cls))
  {
    SubjectsDistinct(g, RdfType, cls);
  }

  // ---------------------------------------------------------------------------------------------
  // Set-filling loops

  /** `for _, _, o in graph.triples((s, p, None)): acc.add(o)`. */
  method AddObjects(g: Graph, s: Node, p: Node, acc: set<Node>) returns (r: set<Node>)
    ensures r == acc + Elems(Objects(g, s, p))
  {
    var os := Objects(g, s, p);
    r := acc;
    for i := 0 to |os|
      invariant r == acc + Elems(os[..i])
    {
      assert os[..i + 1] == os[..i] + [os[i]];
      ElemsAppend(os[..i], [os[i]]);
      r := r + {os[i]};
    }
    assert os[..|os|] == os;
  }

  /** The same over a two-step walk: for every `(s, p1, m)`, add the objects of `(m, p2, ?)`. */
  method AddVia(g: Graph, s: Node, p1: Node, p2: Node, acc: set<Node>) returns (r: set<Node>)
    ensures r == acc + Elems(Via(g, s, p1, p2))
  {
    var ms := Objects(g, s, p1);
    r := acc;
    for i := 0 to |ms|
      invariant r == acc + Elems(FlatMap(ms[..i], ObjectsOf(g, p2)))
    {
      FlatMapStep(ms, i, ObjectsOf(g, p2));
      ElemsAppend(FlatMap(ms[..i], ObjectsOf(g, p2)), Objects(g, ms[i], p2));
      r := AddObjects(g, ms[i], p2, r);
    }
    assert ms[..|ms|] == ms;
  }

  /** `for _, _, s in graph.triples((None, p, o)): acc.add(s)`. */
  method AddSubjects(g: Graph, p: Node, o: Node, acc: set<Node>) returns (r: set<Node>)
    ensures r == acc + Elems(Subjects(g, p, o))
  {
    var ss := Subjects(g, p, o);
    r := acc;
    for i := 0 to |ss|
      invariant r == acc + Elems(ss[..i])
    {
      assert ss[..i + 1] == ss[..i] + [ss[i]];
      ElemsAppend(ss[..i], [ss[i]]);
      r := r + {ss[i]};
    }
    assert ss[..|ss|] == ss;
  }

  /** The set of the subjects typed `cls` (`for s, _, _ in graph.triples((None, RDF.type, cls)):
      acc.add(s)` from an empty set). */
  method TypedSet(g: Graph, cls: Node) returns (r: set<Node>)
    ensures r == Elems(OfType(g, cls))
    ensures forall s :: s in r <==> Triple(s, RdfType, cls) in g
  {
    r := AddSubjects(g, RdfType, cls, {});
  }
}
