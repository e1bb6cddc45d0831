/** graph_checks/registry.py: the table of issue types the command line can ask for, each with the
    analyzer that reports it, and the loop that runs each requested analyzer once and files its
    findings under their issue types. */
module Registry {
  import opened Wrappers
  import opened Seqs

  /** The registered issue types; `Name` gives the key each is registered under. */
  datatype IssueType =
    | DuplicateDeviceId | OrphanedDevices | InvalidDeviceRanges | DeviceAddressConflicts
    | MissingVendorIds | UnreachableNetworks | MissingRouters | DuplicateNetwork
    | DuplicateRouter | DuplicateBbmdWarning | DuplicateBbmdError

  /** The analyzer functions the table refers to; two entries with the same analyzer share one
      function object. */
  datatype Analyzer =
    | CheckDuplicateDeviceIds | CheckOrphanedDevices | CheckInvalidDeviceRanges | CheckDeviceAddressConflicts
    | CheckMissingVendorIds | CheckUnreachableNetworks | CheckMissingRouters | CheckDuplicateNetworks
    | CheckDuplicateBbmds

  /** The columns of a row that drive the run: the analyzer, whether it reports this type only,
      and the other types it reports. An entry without `related_types` has `relatedTypes == []`,
      which is what the registry's `.get('related_types', [])` reads for it. */
  datatype Entry = Entry(analyzer: Analyzer, singleCheck: bool, relatedTypes: seq<IssueType>)

  /** The key of a registered type. */
  function Name(t: IssueType): string {
    match t
    case DuplicateDeviceId => "duplicate-device-id"
    case OrphanedDevices => "orphaned-devices"
    case InvalidDeviceRanges => "invalid-device-ranges"
    case DeviceAddressConflicts => "device-address-conflicts"
    case MissingVendorIds => "missing-vendor-ids"
    case UnreachableNetworks => "unreachable-networks"
    case MissingRouters => "missing-routers"
    case DuplicateNetwork => "duplicate-network"
    case DuplicateRouter => "duplicate-router"
    case DuplicateBbmdWarning => "duplicate-bbmd-warning"
    case DuplicateBbmdError => "duplicate-bbmd-error"
  }

  /** The table's entry for a registered type. */
  function EntryOf(t: IssueType): Entry {
    match t
    case DuplicateDeviceId => Entry(CheckDuplicateDeviceIds, true, [])
    case OrphanedDevices => Entry(CheckOrphanedDevices, true, [])
    case InvalidDeviceRanges => Entry(CheckInvalidDeviceRanges, true, [])
    case DeviceAddressConflicts => Entry(CheckDeviceAddressConflicts, true, [])
    case MissingVendorIds => Entry(CheckMissingVendorIds, true, [])
    case UnreachableNetworks => Entry(CheckUnreachableNetworks, true, [])
    case MissingRouters => Entry(CheckMissingRouters, true, [])
    case DuplicateNetwork => Entry(CheckDuplicateNetworks, false, [DuplicateRouter])
    case DuplicateRouter => Entry(CheckDuplicateNetworks, false, [DuplicateNetwork])
    case DuplicateBbmdWarning => Entry(CheckDuplicateBbmds, false, [DuplicateBbmdError])
    case DuplicateBbmdError => Entry(CheckDuplicateBbmds, false, [DuplicateBbmdWarning])
  }

  /** The `description` column. */
  function Description(t: IssueType): string {
    match t
    case DuplicateDeviceId => "Detect devices with same ID across different networks/subnets"
    case OrphanedDevices => "Detect devices not connected to any network or subnet"
    case InvalidDeviceRanges => "Detect devices with instance IDs outside valid BACnet range (0-4194303)"
    case DeviceAddressConflicts => "Detect devices with same address on same network/subnet"
    case MissingVendorIds => "Detect devices without vendor identification or invalid vendor formats"
    case UnreachableNetworks => "Detect networks isolated without routing paths to other networks"
    case MissingRouters => "Detect multi-network setups without proper routing infrastructure"
    case DuplicateNetwork => "Detect network numbers on routers in different subnets"
    case DuplicateRouter => "Detect network numbers on multiple routers in same subnet"
    case DuplicateBbmdWarning => "Detect multiple BBMDs on same subnet (not all have BDT entries)"
    case DuplicateBbmdError => "Detect multiple BBMDs with BDT entries on same subnet"
  }

  /** The `category` column. */
  function Category(t: IssueType): string {
    match t
    case DuplicateDeviceId | DeviceAddressConflicts => "device-conflicts"
    case OrphanedDevices => "connectivity"
    case InvalidDeviceRanges | MissingVendorIds => "device-validation"
    case UnreachableNetworks | MissingRouters | DuplicateNetwork | DuplicateRouter => "network-topology"
    case DuplicateBbmdWarning | DuplicateBbmdError => "bbmd-configuration"
  }

  /** The registered types in registration order (the dict's key order). */
  const Order: seq<IssueType> := [
    DuplicateDeviceId, OrphanedDevices, InvalidDeviceRanges, DeviceAddressConflicts, MissingVendorIds,
    UnreachableNetworks, MissingRouters, DuplicateNetwork, DuplicateRouter, DuplicateBbmdWarning,
    DuplicateBbmdError]

  /** The order lists every type once. */
  lemma OrderListsAll()
    ensures Distinct(Order) && forall t :: t in Order
  {
    forall t ensures t in Order {
      match t
      case DuplicateDeviceId => case OrphanedDevices => case InvalidDeviceRanges =>
      case DeviceAddressConflicts => case MissingVendorIds => case UnreachableNetworks =>
      case MissingRouters => case DuplicateNetwork => case DuplicateRouter =>
      case DuplicateBbmdWarning => case DuplicateBbmdError =>
    }
  }

  /** No two types share a key, and "all" is nobody's key. */
  lemma NamesDiffer(a: IssueType, b: IssueType)
    ensures Name(a) == Name(b) ==> a == b
    ensures Name(a) != "all"
  {
  }

  /** The keys of a sequence of types. */
  function Names(ts: seq<IssueType>): (r: seq<string>)
    ensures |r| == |ts| && forall k | 0 <= k < |ts| :: r[k] == Name(ts[k])
  {
    Map(ts, Name)
  }

  /** A key is among the keys of `ts` exactly when its type is among `ts`, and the keys of
      different types differ. */
  lemma NamesSpec(ts: seq<IssueType>)
    ensures forall t :: Name(t) in Names(ts) <==> t in ts
    ensures Distinct(ts) ==> Distinct(Names(ts))
  {
    var r := Names(ts);
    forall t | Name(t) in r ensures t in ts {
      var k :| 0 <= k < |r| && r[k] == Name(t);
      NamesDiffer(t, ts[k]);
    }
    forall i, j | 0 <= i < j < |r| && Distinct(ts) ensures r[i] != r[j] {
      NamesDiffer(ts[i], ts[j]);
    }
  }

  /** The registered type of a key, if any (the dict lookup). */
  function Lookup(name: string): (r: Option<IssueType>)
    ensures r.Some? ==> Name(r.value) == name
  {
    Find(Order, name)
  }

  /** Every type is found under its own key, so a key found nowhere is nobody's. */
  lemma LookupName(t: IssueType)
    ensures Lookup(Name(t)) == Some(t)
  {
    OrderListsAll();
    NamesDiffer(t, Lookup(Name(t)).value);
  }

  /** The first type of `ts` whose key is `name`. */
  function Find(ts: seq<IssueType>, name: string): (r: Option<IssueType>)
    ensures r.Some? ==> r.value in ts && Name(r.value) == name
    ensures r.None? ==> forall t | t in ts :: Name(t) != name
  {
    if ts == [] then None
    else if Name(ts[0]) == name then Some(ts[0])
    else Find(ts[1..], name)
  }

  /** Whether two types are reported by the same analyzer. */
  predicate Siblings(t: IssueType, u: IssueType) {
    EntryOf(t).analyzer == EntryOf(u).analyzer
  }

  /** An entry together with its related types lists exactly the types of its analyzer. */
  lemma SiblingListed(t: IssueType, u: IssueType)
    ensures u in [t] + EntryOf(t).relatedTypes <==> Siblings(t, u)
  {
  }

  /** An entry together with its related types lists the types of its analyzer, once each; all of
      them agree on being single checks, and only a multi-type entry has related types. */
  lemma RelatedAreSiblings(t: IssueType)
    ensures forall u :: u in [t] + EntryOf(t).relatedTypes <==> Siblings(t, u)
    ensures Distinct([t] + EntryOf(t).relatedTypes)
    ensures EntryOf(t).singleCheck <==> EntryOf(t).relatedTypes == []
    ensures forall u | Siblings(t, u) :: EntryOf(u).singleCheck == EntryOf(t).singleCheck
  {
    forall u ensures u in [t] + EntryOf(t).relatedTypes <==> Siblings(t, u) {
      SiblingListed(t, u);
    }
  }

  /** A single-check entry is the only type of its analyzer. */
  lemma SingleMeansAlone(t: IssueType)
    ensures EntryOf(t).singleCheck <==> forall u | Siblings(t, u) :: u == t
  {
    RelatedAreSiblings(t);
    if !EntryOf(t).singleCheck {
      var u := EntryOf(t).relatedTypes[0];
      assert u in [t] + EntryOf(t).relatedTypes && u != t;
    }
  }

  // ---------------------------------------------------------------------------------------------
  // Queries

  /** The registered keys are exactly the keys of the order, once each. */
  lemma KeysOfOrder()
    ensures Distinct(Names(Order))
    ensures forall s :: s in Names(Order) <==> Lookup(s).Some?
  {
    OrderListsAll();
    NamesSpec(Order);
    forall s | s in Names(Order) ensures Lookup(s).Some? {
      var k :| 0 <= k < |Order| && Names(Order)[k] == s;
      LookupName(Order[k]);
    }
  }

  /** `get_all_issue_types`: every registered key, once each, in registration order. */
  function AllIssueTypes(): (r: seq<string>)
    ensures Distinct(r) && |r| == |Order|
    ensures forall s :: s in r <==> Lookup(s).Some?
  {
    KeysOfOrder();
    Names(Order)
  }

  /** `get_cli_choices`: the registered keys followed by "all": one more choice than there are
      types, and no choice twice. */
  function CliChoices(): (r: seq<string>)
    ensures |r| == |AllIssueTypes()| + 1 && r[|r| - 1] == "all" && r[..|r| - 1] == AllIssueTypes()
    ensures Distinct(r) && forall s :: s in r <==> Lookup(s).Some? || s == "all"
  {
    var types := AllIssueTypes();
    NamesDiffer(DuplicateDeviceId, DuplicateDeviceId);
    assert Lookup("all").None? by {
      if Lookup("all").Some? {
        NamesDiffer(Lookup("all").value, Lookup("all").value);
      }
    }
    DistinctSnoc(types, "all");
    assert (types + ["all"])[..|types|] == types;
    types + ["all"]
  }

  /** `get_issue_description`: the entry's description, or 'Unknown issue type' for a key that is
      not registered. */
  function IssueDescription(issueType: string): (r: string)
    ensures Lookup(issueType).Some? ==> r == Description(Lookup(issueType).value)
    ensures Lookup(issueType).None? ==> r == "Unknown issue type"
  {
    match Lookup(issueType)
    case Some(t) => Description(t)
    case None => "Unknown issue type"
  }

  /** No registered type has the description given to unknown keys, so the description tells a
      registered key from an unregistered one. */
  lemma DescriptionTellsKnown(issueType: string)
    ensures Lookup(issueType).Some? <==> IssueDescription(issueType) != "Unknown issue type"
  {
    if Lookup(issueType).Some? {
      KnownDescription(Lookup(issueType).value);
    }
  }

  /** Every entry's description differs from the one given to unknown keys. */
  lemma KnownDescription(t: IssueType)
    ensures Description(t) != "Unknown issue type"
  {
  }

  /** `is_single_check`: a registered type is a single check exactly when no other type shares its
      analyzer; an unregistered key counts as a single check. */
  function IsSingleCheck(issueType: string): (r: bool)
    ensures Lookup(issueType).None? ==> r
    ensures Lookup(issueType).Some? ==>
      (r <==> forall u | Siblings(Lookup(issueType).value, u) :: u == Lookup(issueType).value)
  {
    match Lookup(issueType)
    case Some(t) =>
      SingleMeansAlone(t);
      EntryOf(t).singleCheck
    case None => true
  }

  /** `resolve_issues_to_check`: "all" gives every registered key in registration order; any
      other key comes first in its own list, followed, for a multi-type entry, by the keys of the
      other types of its analyzer; an unregistered key is passed on alone. */
  function ResolveIssuesToCheck(requested: string): (r: seq<string>)
    ensures requested == "all" ==> r == AllIssueTypes()
    ensures requested != "all" ==> r != [] && r[0] == requested && Distinct(r)
    ensures requested != "all" && Lookup(requested).Some? ==>
      forall u :: Name(u) in r <==> Siblings(Lookup(requested).value, u)
    ensures requested != "all" && IsSingleCheck(requested) ==> r == [requested]
  {
    if requested == "all" then AllIssueTypes()
    else match Lookup(requested)
      case Some(t) =>
        var group := [t] + EntryOf(t).relatedTypes;
        RelatedAreSiblings(t);
        NamesSpec(group);
        NamesSpec([t]);
        if EntryOf(t).singleCheck then [requested] else Names(group)
      case None => [requested]
  }

  /** Whether a type is filed under a category. */
  function InCategory(category: string): IssueType -> bool {
    t => Category(t) == category
  }

  /** `get_issues_by_category`: the keys of the registered types of a category, once each, in
      registration order. */
  function IssuesByCategory(category: string): (r: seq<string>)
    ensures Distinct(r)
    ensures forall t :: Name(t) in r <==> Category(t) == category
  {
    var kept := Filter(Order, InCategory(category));
    OrderListsAll();
    FilterSpec(Order, InCategory(category));
    FilterDistinct(Order, InCategory(category));
    NamesSpec(kept);
    Names(kept)
  }

  // ---------------------------------------------------------------------------------------------
  // Running the checks

  /** The findings of an analyzer that carry a given `issue_type` (a list comprehension). */
  function OfIssueType<I>(issues: seq<I>, kind: I -> Option<string>, t: string): (r: seq<I>)
    ensures forall i | i in r :: i in issues && kind(i) == Some(t)
    ensures forall i | i in issues && kind(i) == Some(t) :: i in r
  {
    FilterSpec(issues, (i: I) => kind(i) == Some(t));
    Filter(issues, (i: I) => kind(i) == Some(t))
  }

  /** What a run files under a registered type: everything its analyzer returned for a single
      check, and the findings of that type for a multi-type analyzer. */
  function Bucket<I(!new), A>(run: Analyzer -> (seq<I>, seq<A>), kind: I -> Option<string>, t: IssueType): (r: seq<I>)
    ensures EntryOf(t).singleCheck ==> r == run(EntryOf(t).analyzer).0
    ensures !EntryOf(t).singleCheck ==> forall i :: i in r <==> i in run(EntryOf(t).analyzer).0 && kind(i) == Some(Name(t))
  {
    var issues := run(EntryOf(t).analyzer).0;
    if EntryOf(t).singleCheck then issues else OfIssueType(issues, kind, Name(t))
  }

  /** The affected items an analyzer returned. */
  function AffectedOf<I, A>(run: Analyzer -> (seq<I>, seq<A>)): Analyzer -> seq<A> {
    a => run(a).1
  }

  /** The analyzer registered for a key, if any. */
  function AnalyzerFor(s: string): Option<Analyzer> {
    match Lookup(s)
    case Some(t) => Some(EntryOf(t).analyzer)
    case None => None
  }

  /** The state of `execute_checks` after it has looked at the requested keys `seen`: the
      analyzers called so far, once each and exactly those of the registered keys seen; the
      affected items they returned, in call order; and, for every type those analyzers serve and
      no other, its bucket. */
  ghost predicate Executed<I(!new), A>(run: Analyzer -> (seq<I>, seq<A>), kind: I -> Option<string>, seen: seq<string>,
                                       allIssues: map<IssueType, seq<I>>, allAffected: seq<A>, executed: seq<Analyzer>)
  {
    && Distinct(executed)
    && (forall a :: a in executed <==> exists s | s in seen :: AnalyzerFor(s) == Some(a))
    && allAffected == FlatMap(executed, AffectedOf(run))
    && (forall t :: t in allIssues <==> EntryOf(t).analyzer in executed)
    && (forall t | t in allIssues :: allIssues[t] == Bucket(run, kind, t))
  }

  /** The inner loop of the multi-type branch: one bucket for each of `types`, holding the
      findings of that type. */
  method FileByType<I>(allIssues: map<IssueType, seq<I>>, issues: seq<I>, kind: I -> Option<string>, types: seq<IssueType>)
    returns (filed: map<IssueType, seq<I>>)
    ensures filed.Keys == allIssues.Keys + Elems(types)
    ensures forall t | t in types :: filed[t] == OfIssueType(issues, kind, Name(t))
    ensures forall t | t in allIssues && t !in types :: filed[t] == allIssues[t]
  {
    filed := allIssues;
    for j := 0 to |types|
      invariant filed.Keys == allIssues.Keys + Elems(types[..j])
      invariant forall t | t in types[..j] :: filed[t] == OfIssueType(issues, kind, Name(t))
      invariant forall t | t in allIssues && t !in types[..j] :: filed[t] == allIssues[t]
    {
      assert types[..j + 1] == types[..j] + [types[j]];
      ElemsAppend(types[..j], [types[j]]);
      filed := filed[types[j] := OfIssueType(issues, kind, Name(types[j]))];
    }
    assert types[..|types|] == types;
  }

  /** A request that changes nothing: its key is not registered, or its analyzer has run. */
  lemma SkipStep<I(!new), A>(run: Analyzer -> (seq<I>, seq<A>), kind: I -> Option<string>, seen: seq<string>, s: string,
                             allIssues: map<IssueType, seq<I>>, allAffected: seq<A>, executed: seq<Analyzer>)
    requires Executed(run, kind, seen, allIssues, allAffected, executed)
    requires AnalyzerFor(s).None? || AnalyzerFor(s).value in executed
    ensures Executed(run, kind, seen + [s], allIssues, allAffected, executed)
  {
    forall a | exists u | u in seen + [s] :: AnalyzerFor(u) == Some(a) ensures a in executed {
      var u :| u in seen + [s] && AnalyzerFor(u) == Some(a);
      assert u in seen || u == s;
    }
    forall a | a in executed ensures exists u | u in seen + [s] :: AnalyzerFor(u) == Some(a) {
      var u :| u in seen && AnalyzerFor(u) == Some(a);
      assert u in seen + [s];
    }
  }

  /** A request whose analyzer runs for the first time, once the buckets of the types it serves
      are filed. */
  lemma RunStep<I(!new), A>(run: Analyzer -> (seq<I>, seq<A>), kind: I -> Option<string>, seen: seq<string>, s: string,
                            fn: Analyzer, group: set<IssueType>, allIssues: map<IssueType, seq<I>>, allAffected: seq<A>,
                            executed: seq<Analyzer>, filed: map<IssueType, seq<I>>)
    requires Executed(run, kind, seen, allIssues, allAffected, executed)
    requires AnalyzerFor(s) == Some(fn) && fn !in executed
    requires forall u :: u in group <==> EntryOf(u).analyzer == fn
    requires filed.Keys == allIssues.Keys + group
    requires forall u | u in group :: filed[u] == Bucket(run, kind, u)
    requires forall t | t in allIssues && t !in group :: filed[t] == allIssues[t]
    ensures Executed(run, kind, seen + [s], filed, allAffected + run(fn).1, executed + [fn])
  {
    FlatMapSnoc(executed, fn, AffectedOf(run));
    DistinctSnoc(executed, fn);
    forall a | exists u | u in seen + [s] :: AnalyzerFor(u) == Some(a) ensures a in executed + [fn] {
      var u :| u in seen + [s] && AnalyzerFor(u) == Some(a);
      assert u in seen || u == s;
    }
    forall a | a in executed + [fn] ensures exists u | u in seen + [s] :: AnalyzerFor(u) == Some(a) {
      if a == fn {
        assert s in seen + [s];
      } else {
        var u :| u in seen && AnalyzerFor(u) == Some(a);
        assert u in seen + [s];
      }
    }
  }

  /** One round of the loop: the requested key `s` is skipped when it is not registered or its
      analyzer has already run; otherwise its analyzer runs and the buckets of the types it serves
      are filed. */
  method ExecuteOne<I(!new), A>(run: Analyzer -> (seq<I>, seq<A>), kind: I -> Option<string>, seen: seq<string>, s: string,
                                allIssues: map<IssueType, seq<I>>, allAffected: seq<A>, executed: seq<Analyzer>)
    returns (allIssues': map<IssueType, seq<I>>, allAffected': seq<A>, executed': seq<Analyzer>)
    requires Executed(run, kind, seen, allIssues, allAffected, executed)
    ensures Executed(run, kind, seen + [s], allIssues', allAffected', executed')
  {
    allIssues', allAffected', executed' := allIssues, allAffected, executed;
    var found := Lookup(s);
    if found.None? || EntryOf(found.value).analyzer in executed {
      SkipStep(run, kind, seen, s, allIssues, allAffected, executed);
      return;
    }
    var t := found.value;
    var info := EntryOf(t);
    var fn := info.analyzer;
    RelatedAreSiblings(t);
    var group := [t] + info.relatedTypes;
    var (issues, affected) := run(fn);
    if info.singleCheck {
      assert group == [t];
      allIssues' := allIssues[t := issues];
    } else {
      allIssues' := FileByType(allIssues, issues, kind, group);
    }
    RunStep(run, kind, seen, s, fn, Elems(group), allIssues, allAffected, executed, allIssues');
    allAffected' := allAffected + affected;
    executed' := executed + [fn];
  }

  /** `execute_checks`: the analyzer of each registered requested key is called exactly once, in
      the order of the first request for it, and no other analyzer is called; unregistered keys
      are skipped. The affected items are those the called analyzers returned, in call order;
      every type served by a called analyzer gets its bucket (the whole result for a single check,
      the findings of that type for a multi-type analyzer), and no other type does. */
  method ExecuteChecks<I(!new), A>(issuesToCheck: seq<string>, run: Analyzer -> (seq<I>, seq<A>), kind: I -> Option<string>)
    returns (allIssues: map<IssueType, seq<I>>, allAffected: seq<A>, executed: seq<Analyzer>)
    ensures Distinct(executed)
    ensures forall a :: a in executed <==> exists s | s in issuesToCheck :: AnalyzerFor(s) == Some(a)
    ensures allAffected == FlatMap(executed, AffectedOf(run))
    ensures forall t :: t in allIssues <==> EntryOf(t).analyzer in executed
    ensures forall t | t in allIssues :: allIssues[t] == Bucket(run, kind, t)
  {
    allIssues, allAffected, executed := map[], [], [];
    for i := 0 to |issuesToCheck|
      invariant Executed(run, kind, issuesToCheck[..i], allIssues, allAffected, executed)
    {
      assert issuesToCheck[..i + 1] == issuesToCheck[..i] + [issuesToCheck[i]];
      allIssues, allAffected, executed := ExecuteOne(run, kind, issuesToCheck[..i], issuesToCheck[i], allIssues, allAffected, executed);
    }
    assert issuesToCheck[..|issuesToCheck|] == issuesToCheck;
  }

  /** The split of a multi-type analyzer's result loses nothing when every finding carries one of
      the two keys that analyzer serves: the two buckets together hold all of it. */
  lemma {:induction false} SplitLosesNothing<I>(issues: seq<I>, kind: I -> Option<string>, t: string, u: string)
    requires t != u
    requires forall i | i in issues :: kind(i) == Some(t) || kind(i) == Some(u)
    ensures |OfIssueType(issues, kind, t)| + |OfIssueType(issues, kind, u)| == |issues|
  {
    if issues != [] {
      var rest := issues[..|issues| - 1];
      assert forall i | i in rest :: i in issues;
      SplitLosesNothing(rest, kind, t, u);
    }
  }
}
