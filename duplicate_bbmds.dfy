/** graph_checks/duplicate_bbmds.py: several BBMDs serving one broadcast domain, an error when two or
    more of them carry broadcast distribution table entries. */
module DuplicateBbmds {
  import opened Wrappers
  import opened Seqs
  import opened Bacnet
  import opened Grouping

  const DuplicateBbmdError: string := "duplicate-bbmd-error"
  const DuplicateBbmdWarning: string := "duplicate-bbmd-warning"

  /** One item of the first pass's dictionary: a BBMD with its broadcast domains and BDT entries. */
  datatype BbmdInfo = BbmdInfo(bbmd: Node, subnets: seq<Node>, bdtEntries: seq<Node>, hasBdt: bool)

  /** One entry of a subnet's BBMD list. */
  datatype BbmdEntry = BbmdEntry(bbmd: Node, bdtEntries: seq<Node>, hasBdt: bool)

  datatype Issue = Issue(
    issueType: string,
    severity: Severity,
    subnet: Node,
    bbmdCount: nat,
    bbmds: seq<BbmdEntry>,
    bbmdsWithBdtCount: nat)

  // ---------------------------------------------------------------------------------------------
  // Specification

  function HasDomains(g: Graph): Node -> bool {
    b => Has(g, b, BbmdBroadcastDomain)
  }

  function InfoOf(g: Graph): Node -> BbmdInfo {
    b => var bdt := Objects(g, b, BdtEntry);
      BbmdInfo(b, Objects(g, b, BbmdBroadcastDomain), bdt, |bdt| > 0)
  }

  /** The BBMDs the first pass keeps, in first-insertion order. */
  function Tracked(g: Graph): seq<Node> {
    Dedup(Filter(OfType(g, BbmdClass), HasDomains(g)))
  }

  /** Only BBMD-typed subjects with at least one broadcast domain are tracked, each once. */
  lemma TrackedSpec(g: Graph, b: Node)
    ensures b in Tracked(g) <==> Triple(b, RdfType, BbmdClass) in g && Has(g, b, BbmdBroadcastDomain)
    ensures Distinct(Tracked(g))
  {
    FilterSpec(OfType(g, BbmdClass), HasDomains(g));
  }

  function SubnetsOfInfo(i: BbmdInfo): seq<Node> {
    i.subnets
  }

  function EntryOfInfo(i: BbmdInfo): BbmdEntry {
    BbmdEntry(i.bbmd, i.bdtEntries, i.hasBdt)
  }

  /** (subnet, BBMD entry) for every broadcast domain of every tracked BBMD, in the order the second
      pass appends them. */
  function SubnetPairs(g: Graph): seq<(Node, BbmdEntry)> {
    FlatMap(Map(Tracked(g), InfoOf(g)), PairsWith(SubnetsOfInfo, EntryOfInfo))
  }

  /** A subnet is grouped iff a tracked BBMD serves it, and its list holds exactly the entries of the
      tracked BBMDs serving it, so a BBMD with several domains is in each of their lists; `has_bdt`
      holds iff the BBMD has a bdt-entry. */
  lemma SubnetPairsSpec(g: Graph, s: Node, e: BbmdEntry)
    ensures s in Keys(SubnetPairs(g)) <==> exists b :: b in Tracked(g) && Triple(b, BbmdBroadcastDomain, s) in g
    ensures e in Values(SubnetPairs(g), s) <==>
      && e.bbmd in Tracked(g) && Triple(e.bbmd, BbmdBroadcastDomain, s) in g
      && e.bdtEntries == Objects(g, e.bbmd, BdtEntry)
      && (e.hasBdt <==> Has(g, e.bbmd, BdtEntry))
  {
    var infos := Map(Tracked(g), InfoOf(g));
    GroupedSpec(infos, SubnetsOfInfo, EntryOfInfo, s, e);
    forall i ensures i in infos <==> i.bbmd in Tracked(g) && i == InfoOf(g)(i.bbmd) {
      MapMember(Tracked(g), InfoOf(g), i);
    }
    if exists b :: b in Tracked(g) && Triple(b, BbmdBroadcastDomain, s) in g {
      var b :| b in Tracked(g) && Triple(b, BbmdBroadcastDomain, s) in g;
      assert InfoOf(g)(b) in infos;
    }
    if e.bbmd in Tracked(g) && Triple(e.bbmd, BbmdBroadcastDomain, s) in g && e.bdtEntries == Objects(g, e.bbmd, BdtEntry)
       && (e.hasBdt <==> Has(g, e.bbmd, BdtEntry)) {
      assert InfoOf(g)(e.bbmd) in infos;
    }
  }

  function HasBdt(e: BbmdEntry): bool {
    e.hasBdt
  }

  /** The finding for one subnet and its BBMD list. */
  function Finding(s: Node, entries: seq<BbmdEntry>): Option<Issue> {
    var withBdt := Filter(entries, HasBdt);
    if |entries| > 1 then
      if |withBdt| > 1 then Some(Issue(DuplicateBbmdError, Error, s, |entries|, entries, |withBdt|))
      else Some(Issue(DuplicateBbmdWarning, Warning, s, |entries|, entries, |withBdt|))
    else None
  }

  /** A subnet is reported iff more than one BBMD serves it; the finding is an error exactly when two
      or more of them have BDT entries and a warning otherwise, and the BDT count never exceeds the
      BBMD count. */
  lemma FindingSpec(s: Node, entries: seq<BbmdEntry>)
    ensures var r := Finding(s, entries);
      && (r.Some? <==> |entries| > 1)
      && (r.Some? ==> r.value.subnet == s && r.value.bbmdCount == |entries| && r.value.bbmds == entries)
      && (r.Some? ==> r.value.bbmdsWithBdtCount == CountIf(entries, HasBdt) <= r.value.bbmdCount)
      && (r.Some? ==> (r.value.issueType == DuplicateBbmdError <==> CountIf(entries, HasBdt) >= 2))
      && (r.Some? ==> (r.value.issueType == DuplicateBbmdError <==> r.value.severity == Error))
      && (r.Some? ==> (r.value.issueType == DuplicateBbmdWarning <==> r.value.severity == Warning))
      && (r.Some? ==> r.value.issueType == DuplicateBbmdError || r.value.issueType == DuplicateBbmdWarning)
  {
    FilterSpec(entries, HasBdt);
  }

  /** Exactly one BBMD with BDT entries among several is only a warning. */
  lemma OneBdtIsWarning(s: Node, entries: seq<BbmdEntry>, k: nat)
    requires |entries| > 1 && k < |entries| && entries[k].hasBdt
    requires forall i :: 0 <= i < |entries| && i != k ==> !entries[i].hasBdt
    ensures Finding(s, entries).value.issueType == DuplicateBbmdWarning
    ensures Finding(s, entries).value.bbmdsWithBdtCount == 1
  {
    var a, b := entries[..k], entries[k + 1..];
    assert entries == a + [entries[k]] + b;
    FilterNone(a, HasBdt);
    FilterNone(b, HasBdt);
    FilterAppend(a, [entries[k]], HasBdt);
    FilterAppend(a + [entries[k]], b, HasBdt);
    assert Filter([entries[k]], HasBdt) == [entries[k]] by {
      assert [entries[k]][..0] == [];
    }
  }

  function FindingOf(pairs: seq<(Node, BbmdEntry)>): Node -> Option<Issue> {
    s => Finding(s, Values(pairs, s))
  }

  function EntryTriples(g: Graph): BbmdEntry -> seq<Triple> {
    (e: BbmdEntry) => About(g, e.bbmd)
  }

  /** In verbose mode, every triple about every BBMD of a reported subnet. */
  function TriplesOf(g: Graph, pairs: seq<(Node, BbmdEntry)>, verbose: bool): Node -> seq<Triple> {
    s => if verbose && |Values(pairs, s)| > 1 then FlatMap(Values(pairs, s), EntryTriples(g)) else []
  }

  function SubnetOf(i: Issue): Node {
    i.subnet
  }

  /** A subnet has a finding iff more than one BBMD entry serves it. */
  lemma ReportedSubnets(pairs: seq<(Node, BbmdEntry)>, s: Node)
    ensures (exists i :: i in Collect(Keys(pairs), FindingOf(pairs)) && SubnetOf(i) == s) <==> |Values(pairs, s)| > 1
  {
    FindingNamesSubnet(pairs, Keys(pairs));
    CollectKeyMember(Keys(pairs), FindingOf(pairs), SubnetOf, s);
    KeysValues(pairs, s);
  }

  /** Every finding is one of the two BBMD issue types. */
  lemma IssueTypes(pairs: seq<(Node, BbmdEntry)>, keys: seq<Node>)
    ensures forall i | i in Collect(keys, FindingOf(pairs)) :: i.issueType == DuplicateBbmdError || i.issueType == DuplicateBbmdWarning
  {
    forall i | i in Collect(keys, FindingOf(pairs)) ensures i.issueType == DuplicateBbmdError || i.issueType == DuplicateBbmdWarning {
      CollectMember(keys, FindingOf(pairs), i);
    }
  }

  // ---------------------------------------------------------------------------------------------
  // The analyzer

  /** The first pass: every BBMD-typed subject with broadcast domains, recorded once with its
      domains and BDT entries. */
  method TrackBbmds(g: Graph) returns (infos: seq<BbmdInfo>)
    ensures infos == Map(Tracked(g), InfoOf(g))
  {
    var bbmds := OfType(g, BbmdClass);
    var seen: seq<Node> := [];
    infos := [];
    for i := 0 to |bbmds|
      invariant seen == Dedup(Filter(bbmds[..i], HasDomains(g)))
      invariant infos == Map(seen, InfoOf(g))
    {
      var bbmd := bbmds[i];
      DedupFilterStep(bbmds, i, HasDomains(g));
      var subnets := Objects(g, bbmd, BbmdBroadcastDomain);
      var bdtEntries := Objects(g, bbmd, BdtEntry);
      if subnets != [] && bbmd !in seen {
        MapSnoc(seen, bbmd, InfoOf(g));
        infos := infos + [BbmdInfo(bbmd, subnets, bdtEntries, |bdtEntries| > 0)];
        seen := seen + [bbmd];
      }
    }
    assert bbmds[..|bbmds|] == bbmds;
  }

  /** Every triple about each BBMD of a list, in order. */
  method BbmdTriples(g: Graph, entries: seq<BbmdEntry>) returns (triples: seq<Triple>)
    ensures triples == FlatMap(entries, EntryTriples(g))
  {
    triples := [];
    for m := 0 to |entries|
      invariant triples == FlatMap(entries[..m], EntryTriples(g))
    {
      FlatMapStep(entries, m, EntryTriples(g));
      triples := triples + About(g, entries[m].bbmd);
    }
    assert entries[..|entries|] == entries;
  }

  /** The third pass: one finding per subnet with more than one BBMD, in key order. */
  method ReportSubnets(g: Graph, ghost pairs: seq<(Node, BbmdEntry)>, keys: seq<Node>,
                       groups: map<Node, seq<BbmdEntry>>, verbose: bool)
    returns (issues: seq<Issue>, affectedTriples: seq<Triple>)
    requires forall k | k in keys :: k in groups && groups[k] == Values(pairs, k)
    ensures issues == Collect(keys, FindingOf(pairs))
    ensures affectedTriples == FlatMap(keys, TriplesOf(g, pairs, verbose))
  {
    issues, affectedTriples := [], [];
    for i := 0 to |keys|
      invariant issues == Collect(keys[..i], FindingOf(pairs))
      invariant affectedTriples == FlatMap(keys[..i], TriplesOf(g, pairs, verbose))
    {
      var subnet := keys[i];
      CollectStep(keys, i, FindingOf(pairs));
      FlatMapStep(keys, i, TriplesOf(g, pairs, verbose));
      var bbmdList := groups[subnet];
      if |bbmdList| > 1 {
        var withBdt := Filter(bbmdList, HasBdt);
        var issue := if |withBdt| > 1 then Issue(DuplicateBbmdError, Error, subnet, |bbmdList|, bbmdList, |withBdt|)
                     else Issue(DuplicateBbmdWarning, Warning, subnet, |bbmdList|, bbmdList, |withBdt|);
        issues := issues + [issue];
        if verbose {
          var triples := BbmdTriples(g, bbmdList);
          affectedTriples := affectedTriples + triples;
        }
      }
    }
    assert keys[..|keys|] == keys;
  }

  /** Each finding names the subnet it was made for. */
  lemma FindingNamesSubnet(pairs: seq<(Node, BbmdEntry)>, keys: seq<Node>)
    ensures forall x | x in keys && FindingOf(pairs)(x).Some? :: SubnetOf(FindingOf(pairs)(x).value) == x
  {
  }

  /** `check_duplicate_bbmds`: at most one finding per broadcast domain, each an error or a warning;
      `verbose` only adds triples. */
  method CheckDuplicateBbmds(g: Graph, verbose: bool) returns (issues: seq<Issue>, affectedTriples: seq<Triple>)
    ensures issues == Collect(Keys(SubnetPairs(g)), FindingOf(SubnetPairs(g)))
    ensures affectedTriples == FlatMap(Keys(SubnetPairs(g)), TriplesOf(g, SubnetPairs(g), verbose))
    ensures forall i, j :: 0 <= i < j < |issues| ==> issues[i].subnet != issues[j].subnet
    ensures forall i | i in issues :: i.issueType == DuplicateBbmdError || i.issueType == DuplicateBbmdWarning
  {
    var infos := TrackBbmds(g);
    var keys, groups := GroupNested(infos, SubnetsOfInfo, EntryOfInfo);
    ghost var pairs := SubnetPairs(g);
    issues, affectedTriples := ReportSubnets(g, pairs, keys, groups, verbose);
    FindingNamesSubnet(pairs, keys);
    CollectDistinctKeys(keys, FindingOf(pairs), SubnetOf);
    IssueTypes(pairs, keys);
  }
}
