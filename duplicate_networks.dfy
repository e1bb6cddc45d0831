/** graph_checks/duplicate_networks.py: one network number claimed by several routers, split into
    "same subnet" (a duplicate router) and "different subnets" (a duplicate network). */
module DuplicateNetworks {
  import opened Wrappers
  import opened Seqs
  import opened Bacnet
  import opened Grouping

  const DuplicateRouter: string := "duplicate-router"
  const DuplicateNetwork: string := "duplicate-network"

  /** One item of the first pass's dictionary: a router with its networks and subnets. */
  datatype RouterInfo = RouterInfo(router: Node, networks: seq<Node>, subnets: seq<Node>)

  /** One entry of a network's router list. */
  datatype RouterEntry = RouterEntry(router: Node, subnets: seq<Node>)

  datatype Issue = Issue(
    issueType: string,
    network: Node,
    routerCount: nat,
    routers: seq<RouterEntry>,
    subnets: seq<Node>)

  // ---------------------------------------------------------------------------------------------
  // Specification

  function HasNetworks(g: Graph): Node -> bool {
    r => Has(g, r, DeviceOnNetwork)
  }

  function InfoOf(g: Graph): Node -> RouterInfo {
    r => RouterInfo(r, Objects(g, r, DeviceOnNetwork), Objects(g, r, DeviceOnSubnet))
  }

  /** The routers the first pass keeps, in first-insertion order. */
  function Tracked(g: Graph): seq<Node> {
    Dedup(Filter(OfType(g, RouterClass), HasNetworks(g)))
  }

  /** Only Router-typed subjects with at least one device-on-network are tracked, each once. */
  lemma TrackedSpec(g: Graph, r: Node)
    ensures r in Tracked(g) <==> Triple(r, RdfType, RouterClass) in g && Has(g, r, DeviceOnNetwork)
    ensures Distinct(Tracked(g))
  {
    FilterSpec(OfType(g, RouterClass), HasNetworks(g));
  }

  function NetworksOfInfo(i: RouterInfo): seq<Node> {
    i.networks
  }

  function EntryOfInfo(i: RouterInfo): RouterEntry {
    RouterEntry(i.router, i.subnets)
  }

  /** (network, router entry) for every network of every tracked router, in the order the second
      pass appends them. */
  function NetworkPairs(g: Graph): seq<(Node, RouterEntry)> {
    FlatMap(Map(Tracked(g), InfoOf(g)), PairsWith(NetworksOfInfo, EntryOfInfo))
  }

  /** A network is grouped iff a tracked router is on it, and its list holds exactly the entries of
      the tracked routers on it, each with that router's subnets. */
  lemma NetworkPairsSpec(g: Graph, n: Node, e: RouterEntry)
    ensures n in Keys(NetworkPairs(g)) <==> exists r :: r in Tracked(g) && Triple(r, DeviceOnNetwork, n) in g
    ensures e in Values(NetworkPairs(g), n) <==>
      e.router in Tracked(g) && Triple(e.router, DeviceOnNetwork, n) in g && e.subnets == Objects(g, e.router, DeviceOnSubnet)
  {
    var infos := Map(Tracked(g), InfoOf(g));
    GroupedSpec(infos, NetworksOfInfo, EntryOfInfo, n, e);
    forall i ensures i in infos <==> i.router in Tracked(g) && i == InfoOf(g)(i.router) {
      MapMember(Tracked(g), InfoOf(g), i);
    }
    if exists r :: r in Tracked(g) && Triple(r, DeviceOnNetwork, n) in g {
      var r :| r in Tracked(g) && Triple(r, DeviceOnNetwork, n) in g;
      assert InfoOf(g)(r) in infos;
    }
    if e.router in Tracked(g) && Triple(e.router, DeviceOnNetwork, n) in g && e.subnets == Objects(g, e.router, DeviceOnSubnet) {
      assert InfoOf(g)(e.router) in infos;
    }
  }

  function EntrySubnets(e: RouterEntry): seq<Node> {
    e.subnets
  }

  /** The set union of the routers' subnets, in first-insertion order. */
  function AllSubnets(entries: seq<RouterEntry>): seq<Node> {
    Dedup(FlatMap(entries, EntrySubnets))
  }

  /** The finding for one network and its router list. */
  function Finding(n: Node, entries: seq<RouterEntry>): Option<Issue> {
    var subnets := AllSubnets(entries);
    if |entries| > 1 then
      Some(Issue(if |subnets| == 1 then DuplicateRouter else DuplicateNetwork, n, |entries|, entries, subnets))
    else None
  }

  /** A network is reported iff more than one router entry holds it; the finding is a duplicate
      router exactly when the union of their subnets has one element, and lists that union once. */
  lemma FindingSpec(n: Node, entries: seq<RouterEntry>)
    ensures var r := Finding(n, entries);
      && (r.Some? <==> |entries| > 1)
      && (r.Some? ==> r.value.network == n && r.value.routerCount == |entries| && r.value.routers == entries)
      && (r.Some? ==> (r.value.issueType == DuplicateRouter <==> |r.value.subnets| == 1))
      && (r.Some? ==> (r.value.issueType == DuplicateNetwork <==> |r.value.subnets| != 1))
      && (r.Some? ==> Distinct(r.value.subnets))
      && (r.Some? ==> forall s :: s in r.value.subnets <==> exists e :: e in entries && s in e.subnets)
  {
    forall s ensures s in FlatMap(entries, EntrySubnets) <==> exists e :: e in entries && s in e.subnets {
      FlatMapMember(entries, EntrySubnets, s);
    }
  }

  /** Routers that share one subnet (or report the same single subnet) give a duplicate router;
      routers with no subnets at all give a duplicate network. */
  lemma NoSubnetsIsNetwork(n: Node, entries: seq<RouterEntry>)
    requires |entries| > 1
    requires forall e | e in entries :: e.subnets == []
    ensures Finding(n, entries).value.issueType == DuplicateNetwork
  {
    FlatMapNil(entries, EntrySubnets);
  }

  lemma SharedSubnetIsRouter(n: Node, entries: seq<RouterEntry>, s: Node)
    requires |entries| > 1
    requires forall e | e in entries :: e.subnets == [s]
    ensures Finding(n, entries).value.issueType == DuplicateRouter
  {
    var all := FlatMap(entries, EntrySubnets);
    forall x | x in all ensures x == s {
      FlatMapMember(entries, EntrySubnets, x);
    }
    assert entries[0] in entries;
    FlatMapMember(entries, EntrySubnets, s);
    DedupConstant(all, s);
  }

  function FindingOf(pairs: seq<(Node, RouterEntry)>): Node -> Option<Issue> {
    n => Finding(n, Values(pairs, n))
  }

  function EntryTriples(g: Graph): RouterEntry -> seq<Triple> {
    (e: RouterEntry) => About(g, e.router)
  }

  /** In verbose mode, every triple about every router of a reported network. */
  function TriplesOf(g: Graph, pairs: seq<(Node, RouterEntry)>, verbose: bool): Node -> seq<Triple> {
    n => if verbose && |Values(pairs, n)| > 1 then FlatMap(Values(pairs, n), EntryTriples(g)) else []
  }

  function NetworkOf(i: Issue): Node {
    i.network
  }

  /** A network has a finding iff more than one router entry holds it. */
  lemma ReportedNetworks(pairs: seq<(Node, RouterEntry)>, n: Node)
    ensures (exists i :: i in Collect(Keys(pairs), FindingOf(pairs)) && NetworkOf(i) == n) <==> |Values(pairs, n)| > 1
  {
    FindingNamesNetwork(pairs, Keys(pairs));
    CollectKeyMember(Keys(pairs), FindingOf(pairs), NetworkOf, n);
    KeysValues(pairs, n);
  }

  /** Every finding is one of the two types the registry splits this analyzer's output into. */
  lemma IssueTypes(pairs: seq<(Node, RouterEntry)>, keys: seq<Node>)
    ensures forall i | i in Collect(keys, FindingOf(pairs)) :: i.issueType == DuplicateRouter || i.issueType == DuplicateNetwork
  {
    forall i | i in Collect(keys, FindingOf(pairs)) ensures i.issueType == DuplicateRouter || i.issueType == DuplicateNetwork {
      CollectMember(keys, FindingOf(pairs), i);
    }
  }

  // ---------------------------------------------------------------------------------------------
  // The analyzer

  /** The first pass: every Router-typed subject with networks, recorded once with its networks and
      subnets. */
  method TrackRouters(g: Graph) returns (infos: seq<RouterInfo>)
    ensures infos == Map(Tracked(g), InfoOf(g))
  {
    var routers := OfType(g, RouterClass);
    var seen: seq<Node> := [];
    infos := [];
    for i := 0 to |routers|
      invariant seen == Dedup(Filter(routers[..i], HasNetworks(g)))
      invariant infos == Map(seen, InfoOf(g))
    {
      var router := routers[i];
      DedupFilterStep(routers, i, HasNetworks(g));
      var networks := Objects(g, router, DeviceOnNetwork);
      var subnets := Objects(g, router, DeviceOnSubnet);
      if networks != [] && router !in seen {
        MapSnoc(seen, router, InfoOf(g));
        infos := infos + [RouterInfo(router, networks, subnets)];
        seen := seen + [router];
      }
    }
    assert routers[..|routers|] == routers;
  }

  /** `set.update` over every entry's subnets. */
  method UnionSubnets(entries: seq<RouterEntry>) returns (all: seq<Node>)
    ensures all == AllSubnets(entries)
  {
    ghost var seen: seq<Node> := [];
    all := [];
    for i := 0 to |entries|
      invariant seen == FlatMap(entries[..i], EntrySubnets)
      invariant all == Dedup(seen)
    {
      FlatMapStep(entries, i, EntrySubnets);
      all := AddSubnets(seen, all, entries[i].subnets);
      seen := seen + entries[i].subnets;
    }
    assert entries[..|entries|] == entries;
  }

  /** `set.update` with one entry's subnets. */
  method AddSubnets(ghost seen: seq<Node>, all: seq<Node>, subnets: seq<Node>) returns (all': seq<Node>)
    requires all == Dedup(seen)
    ensures all' == Dedup(seen + subnets)
  {
    all' := all;
    assert seen + subnets[..0] == seen;
    for j := 0 to |subnets|
      invariant all' == Dedup(seen + subnets[..j])
    {
      DedupStep(seen, subnets, j);
      if subnets[j] !in all' {
        all' := all' + [subnets[j]];
      }
    }
    assert subnets[..|subnets|] == subnets;
  }

  /** One more subnet of an entry after the ones before it. */
  lemma DedupStep(seen: seq<Node>, subnets: seq<Node>, j: nat)
    requires j < |subnets|
    ensures var d, x := Dedup(seen + subnets[..j]), subnets[j];
      Dedup(seen + subnets[..j + 1]) == if x in d then d else d + [x]
  {
    assert seen + subnets[..j + 1] == (seen + subnets[..j]) + [subnets[j]];
    DedupSnoc(seen + subnets[..j], subnets[j]);
  }

  /** Every triple about each router of a list, in order. */
  method RouterTriples(g: Graph, entries: seq<RouterEntry>) returns (triples: seq<Triple>)
    ensures triples == FlatMap(entries, EntryTriples(g))
  {
    triples := [];
    for m := 0 to |entries|
      invariant triples == FlatMap(entries[..m], EntryTriples(g))
    {
      FlatMapStep(entries, m, EntryTriples(g));
      triples := triples + About(g, entries[m].router);
    }
    assert entries[..|entries|] == entries;
  }

  /** The third pass: one finding per network with more than one router entry, in key order. */
  method ReportNetworks(g: Graph, ghost pairs: seq<(Node, RouterEntry)>, keys: seq<Node>,
                        groups: map<Node, seq<RouterEntry>>, verbose: bool)
    returns (issues: seq<Issue>, affectedTriples: seq<Triple>)
    requires forall k | k in keys :: k in groups && groups[k] == Values(pairs, k)
    ensures issues == Collect(keys, FindingOf(pairs))
    ensures affectedTriples == FlatMap(keys, TriplesOf(g, pairs, verbose))
  {
    issues, affectedTriples := [], [];
    for i := 0 to |keys|
      invariant issues == Collect(keys[..i], FindingOf(pairs))
      invariant affectedTriples == FlatMap(keys[..i], TriplesOf(g, pairs, verbose))
    {
      var network := keys[i];
      CollectStep(keys, i, FindingOf(pairs));
      FlatMapStep(keys, i, TriplesOf(g, pairs, verbose));
      var routerList := groups[network];
      if |routerList| > 1 {
        var allSubnets := UnionSubnets(routerList);
        var issueType := if |allSubnets| == 1 then DuplicateRouter else DuplicateNetwork;
        issues := issues + [Issue(issueType, network, |routerList|, routerList, allSubnets)];
        if verbose {
          var triples := RouterTriples(g, routerList);
          affectedTriples := affectedTriples + triples;
        }
      }
    }
    assert keys[..|keys|] == keys;
  }

  /** Each finding names the network it was made for. */
  lemma FindingNamesNetwork(pairs: seq<(Node, RouterEntry)>, keys: seq<Node>)
    ensures forall x | x in keys && FindingOf(pairs)(x).Some? :: NetworkOf(FindingOf(pairs)(x).value) == x
  {
  }

  /** `check_duplicate_networks`: at most one finding per network number, each of one of the two
      types the registry splits on; `verbose` only adds triples. */
  method CheckDuplicateNetworks(g: Graph, verbose: bool) returns (issues: seq<Issue>, affectedTriples: seq<Triple>)
    ensures issues == Collect(Keys(NetworkPairs(g)), FindingOf(NetworkPairs(g)))
    ensures affectedTriples == FlatMap(Keys(NetworkPairs(g)), TriplesOf(g, NetworkPairs(g), verbose))
    ensures forall i, j :: 0 <= i < j < |issues| ==> issues[i].network != issues[j].network
    ensures forall i | i in issues :: i.issueType == DuplicateRouter || i.issueType == DuplicateNetwork
  {
    var infos := TrackRouters(g);
    var keys, groups := GroupNested(infos, NetworksOfInfo, EntryOfInfo);
    ghost var pairs := NetworkPairs(g);
    issues, affectedTriples := ReportNetworks(g, pairs, keys, groups, verbose);
    FindingNamesNetwork(pairs, keys);
    CollectDistinctKeys(keys, FindingOf(pairs), NetworkOf);
    IssueTypes(pairs, keys);
  }
}
