# graph-hopper graph checks, modelled in Dafny

graph-hopper downloads the RDF graph a BACnet discovery tool produces for a building network and
runs a family of analyzers over it. Each analyzer walks the graph's triples (devices, routers,
BBMDs, networks and subnets, linked by predicates such as `device-on-network`,
`device-on-subnet`, `device-instance` and `bbmd-broadcast-domain`) and returns a list of
findings, each a record with an issue type, a severity and the nodes it concerns. The analyzers
report:

- orphaned devices;
- out-of-range device instances;
- missing or reserved vendor ids;
- missing essential properties;
- duplicate device ids, network numbers and BBMDs;
- devices that share an address;
- networks with devices but no router;
- networks that cannot be reached;
- device addresses outside their subnet;
- network loops;
- oversized networks;
- broadcast-domain problems;
- routing inefficiencies.

A registry maps the issue names the command line accepts to the analyzers, resolves `all`, and
runs each analyzer once, splitting the output of the analyzers that report several kinds. A small
URL helper normalises the host the tool downloads from.

This project models those analyzers, the registry and the URL helper.

- **Graph.** A graph is a sequence of triples (`Bacnet.Triple`). `graph.triples((s, p, None))` is
  the filter of that sequence, in order, so "the first value of a property" means exactly what it
  means in the source.
- **Analyzers.** Each analyzer's loops are methods with loop invariants. They are proved against
  specification functions (`Filter`, `Collect`, `Map`, group-by, breadth-first closure and so on),
  and the properties of those functions are proved as lemmas.
- **Values.** Python's `int()`, `str.lower()`, `urlparse` and IPv4 arithmetic are written out on
  strings and integers, including the edge cases the source depends on.
- **Shared modules.**
  - `Wrappers`: `Option` and `Result`.
  - `Seqs`: filters, maps, flat maps and the distinctness facts they keep.
  - `Text`: Python string operations and `int()`.
  - `Bacnet`: the vocabulary, triples and severities.
  - `Dicts`: counters and set-valued dictionaries.
  - `Grouping`: insertion-ordered group-by.
  - `Ipv4`: addresses and networks.
  - `Reach`: paths, reachability and breadth-first search over adjacency maps.
- **`routing_inefficiencies.py`.** This file is split into `RoutingGraph`, `RoutingLoops`,
  `RoutingPaths`, `RoutingLinks`, `RoutingRedundancy` and `RoutingInefficiencies`. The
  articulation-point search, which updates shared dictionaries from a recursive helper, is the
  class `RoutingRedundancy.ArticulationSearch`. The loop search carries its search tree as ghost
  depth and parent maps. They show that, where connections go both ways, a loop of three or
  more networks is never missed: a search that records no such loop has walked a tree.

All source paths below are relative to the repository root.

## Model

| member | source | states |
|---|---|---|
| OrphanedDevices.IssueForSpec | src/graph_hopper/graph_checks/orphaned_devices.py:44-79 | every orphan finding is critical; a missing label falls back to the device URI and a missing instance or address to "unknown", otherwise the first value is used; triples are attached exactly in verbose mode |
| OrphanedDevices.CheckOrphanedDevices | src/graph_hopper/graph_checks/orphaned_devices.py:15-102 | the affected nodes are the Device-typed subjects with no network or subnet link, in graph order, each once on a well-formed graph; one critical finding per affected node, in the same order |
| InvalidDeviceRanges.ClassifyInstance | src/graph_hopper/graph_checks/invalid_device_ranges.py:69-97 | an instance is "not a number" exactly when `int()` fails (keeping the raw text), and out of range exactly when it parses outside 0..4194303 (keeping the integer) |
| InvalidDeviceRanges.RangeBoundaries | src/graph_hopper/graph_checks/invalid_device_ranges.py:30-32 | the range is closed: "0" and "4194303" are valid, "-1" and "4194304" are flagged with their values |
| InvalidDeviceRanges.ShowMaxDeviceId | src/graph_hopper/graph_checks/invalid_device_ranges.py:30-32 | the decimal texts of 4194303 and 4194304 |
| InvalidDeviceRanges.LettersNotANumber | src/graph_hopper/graph_checks/invalid_device_ranges.py:70-94 | alphabetic text is reported as not a number, with its raw value |
| InvalidDeviceRanges.FractionNotANumber | src/graph_hopper/graph_checks/invalid_device_ranges.py:70-94 | a decimal fraction such as "12.5" is not an integer literal either |
| InvalidDeviceRanges.InstanceOf | src/graph_hopper/graph_checks/invalid_device_ranges.py:49-52 | the instance is the first device-instance value, absent when there is none or it is empty |
| InvalidDeviceRanges.ExamineSpec | src/graph_hopper/graph_checks/invalid_device_ranges.py:38-117 | a device is reported iff its first instance value is present, non-empty and not a valid instance; the finding is critical, labelled as the source labels it, and keeps the raw text or the parsed integer |
| InvalidDeviceRanges.CheckInvalidDeviceRanges | src/graph_hopper/graph_checks/invalid_device_ranges.py:16-119 | the findings are those of the Device-typed subjects in graph order; issues and affected nodes line up one to one; a node is affected iff it is a Device with a finding; no node twice on a well-formed graph |
| MissingVendorIds.ClassifySpec | src/graph_hopper/graph_checks/missing_vendor_ids.py:67-163 | each rung of the ladder in both directions: missing or empty, not an integer, negative, zero; every positive integer is accepted |
| MissingVendorIds.ZeroIsReserved | src/graph_hopper/graph_checks/missing_vendor_ids.py:118-138 | "0" is rejected as the reserved value |
| MissingVendorIds.MinusOneIsNegative | src/graph_hopper/graph_checks/missing_vendor_ids.py:97-117 | "-1" is rejected as negative |
| MissingVendorIds.LargeIdAccepted | src/graph_hopper/graph_checks/missing_vendor_ids.py:139-140 | a large positive id such as "65535" is accepted |
| MissingVendorIds.TextIsNotNumeric | src/graph_hopper/graph_checks/missing_vendor_ids.py:92-94 | "INVALID" and a URI-style id are both not numeric, since no prefix is removed before `int()` |
| MissingVendorIds.ExamineSpec | src/graph_hopper/graph_checks/missing_vendor_ids.py:35-163 | a device is reported iff its first vendor id is rejected by the ladder; the finding is medium, stores its type under `type` only for a missing id and under `issue_type` otherwise, and carries the raw value unless it is missing |
| MissingVendorIds.CheckMissingVendorIds | src/graph_hopper/graph_checks/missing_vendor_ids.py:17-165 | at most one finding per Device, in graph order, from its first vendor-id value only; issues and affected nodes line up one to one |
| MissingProperties.EssentialsShape | src/graph_hopper/graph_checks/missing_properties.py:51-66 | seven distinct essential properties, three of them critical |
| MissingProperties.PartitionSpec | src/graph_hopper/graph_checks/missing_properties.py:104-117 | the present and missing properties partition the essentials, each in list order, and the missing critical ones are the missing ones that are critical |
| MissingProperties.SortProperties | src/graph_hopper/graph_checks/missing_properties.py:104-117 | the loop builds exactly the present, missing and missing-critical lists of the partition |
| MissingProperties.LadderSpec | src/graph_hopper/graph_checks/missing_properties.py:119-132 | each severity rung in both directions: critical iff a critical property is missing, else major from four missing, warning from two, info for one, no finding for none |
| MissingProperties.SplitEssentials | src/graph_hopper/graph_checks/missing_properties.py:108-117 | the filters over the essentials split at any position |
| MissingProperties.PrefixPresent | src/graph_hopper/graph_checks/missing_properties.py:108-117 | with the first `k` essentials present and the rest absent, the present and missing lists split the essentials at `k` |
| MissingProperties.OnlyInstanceIsCritical | src/graph_hopper/graph_checks/missing_properties.py:119-146 | a device with only its instance is critical with six missing |
| MissingProperties.CriticalsOnlyIsMajor | src/graph_hopper/graph_checks/missing_properties.py:119-146 | a device with exactly the three critical properties is major with four missing |
| MissingProperties.FivePresentIsWarning | src/graph_hopper/graph_checks/missing_properties.py:119-146 | a device missing only the firmware revision and the network is a warning with two missing |
| MissingProperties.PropertyNameBacnet | src/graph_hopper/graph_checks/missing_properties.py:156-157 | a BACnet property URI is shown by its local name |
| MissingProperties.PropertyNameOther | src/graph_hopper/graph_checks/missing_properties.py:162-163 | any other predicate is shown by a suffix of it with no '/' or '#' |
| MissingProperties.ExamineSpec | src/graph_hopper/graph_checks/missing_properties.py:68-182 | a device is reported iff it is not a Grasshopper node and misses at least one essential; the counts add up to seven and the severity follows the ladder |
| MissingProperties.CheckMissingProperties | src/graph_hopper/graph_checks/missing_properties.py:18-184 | at most one finding per Device, in graph order, lined up with the affected nodes; the affected-triples list is always empty |
| DuplicateDevices.InstanceKeys | src/graph_hopper/graph_checks/duplicate_devices.py:33-37 | the grouping keys are exactly the device-instance values in the graph |
| DuplicateDevices.MembershipsSpec | src/graph_hopper/graph_checks/duplicate_devices.py:42-50 | a device's memberships are exactly its networks, tagged "network", and its subnets, tagged "subnet" |
| DuplicateDevices.PlacementCount | src/graph_hopper/graph_checks/duplicate_devices.py:79-86 | the flattened device list has one entry per (device, membership) pair |
| DuplicateDevices.FindingSpec | src/graph_hopper/graph_checks/duplicate_devices.py:59-95 | a value is reported iff it has two or more subjects and more than one distinct membership; the count is the whole group, and the distinct memberships are exactly those of its subjects |
| DuplicateDevices.OnePlaceNoFinding | src/graph_hopper/graph_checks/duplicate_devices.py:76-77 | subjects that all sit on one and the same place are not reported |
| DuplicateDevices.NetworksOf | src/graph_hopper/graph_checks/duplicate_devices.py:42-50 | the two loops list the device's networks, then its subnets |
| DuplicateDevices.DeviceNetworkMap | src/graph_hopper/graph_checks/duplicate_devices.py:40-56 | the map holds exactly the grouped subjects that have memberships, each with its memberships |
| DuplicateDevices.GatherGroup | src/graph_hopper/graph_checks/duplicate_devices.py:62-73 | the loop gathers the memberships and the info entries of the subjects in the map, in group order |
| DuplicateDevices.Flatten | src/graph_hopper/graph_checks/duplicate_devices.py:79-86 | the nested loop produces the flattened list |
| DuplicateDevices.TriplesAbout | src/graph_hopper/graph_checks/duplicate_devices.py:98-102 | every triple about each device, in order |
| DuplicateDevices.CheckGroup | src/graph_hopper/graph_checks/duplicate_devices.py:59-102 | one group yields the finding `FindingSpec` describes and, in verbose mode only, the triples of its subjects |
| DuplicateDevices.FindingNamesId | src/graph_hopper/graph_checks/duplicate_devices.py:88-94 | each finding names the value it was made for |
| DuplicateDevices.ReportGroups | src/graph_hopper/graph_checks/duplicate_devices.py:59-102 | one group check per key, in key order |
| DuplicateDevices.CheckDuplicateDeviceIds | src/graph_hopper/graph_checks/duplicate_devices.py:13-108 | at most one finding per device-instance value, each for a value with subjects on more than one place; `verbose` changes only the triples |
| DuplicateNetworks.TrackedSpec | src/graph_hopper/graph_checks/duplicate_networks.py:37-54 | only Router-typed subjects with at least one network are tracked, each once, with their networks and subnets |
| DuplicateNetworks.NetworkPairsSpec | src/graph_hopper/graph_checks/duplicate_networks.py:57-65 | a network is grouped iff a tracked router is on it, and its list holds exactly the entries of the tracked routers on it |
| DuplicateNetworks.FindingSpec | src/graph_hopper/graph_checks/duplicate_networks.py:68-93 | a network is reported iff more than one router entry holds it; it is a duplicate router exactly when the union of their subnets has one element, and the finding lists that union once |
| DuplicateNetworks.NoSubnetsIsNetwork | src/graph_hopper/graph_checks/duplicate_networks.py:72-83 | routers with no subnets at all give a duplicate network, not a duplicate router |
| DuplicateNetworks.SharedSubnetIsRouter | src/graph_hopper/graph_checks/duplicate_networks.py:72-79 | routers that all report the same single subnet give a duplicate router |
| DuplicateNetworks.ReportedNetworks | src/graph_hopper/graph_checks/duplicate_networks.py:68-69 | a network has a finding iff more than one router entry holds it |
| DuplicateNetworks.IssueTypes | src/graph_hopper/graph_checks/duplicate_networks.py:76-83 | every finding is a duplicate router or a duplicate network |
| DuplicateNetworks.TrackRouters | src/graph_hopper/graph_checks/duplicate_networks.py:37-54 | the first pass records the tracked routers |
| DuplicateNetworks.UnionSubnets | src/graph_hopper/graph_checks/duplicate_networks.py:72-74 | `set.update` over every entry yields the union of their subnets |
| DuplicateNetworks.AddSubnets | src/graph_hopper/graph_checks/duplicate_networks.py:74 | one `set.update` adds the entry's subnets not already present, in order, after the ones seen before |
| DuplicateNetworks.RouterTriples | src/graph_hopper/graph_checks/duplicate_networks.py:96-100 | every triple about each router of the list, in order |
| DuplicateNetworks.ReportNetworks | src/graph_hopper/graph_checks/duplicate_networks.py:68-100 | one finding per network with more than one router entry, in key order |
| DuplicateNetworks.FindingNamesNetwork | src/graph_hopper/graph_checks/duplicate_networks.py:85-92 | each finding names the network it was made for |
| DuplicateNetworks.CheckDuplicateNetworks | src/graph_hopper/graph_checks/duplicate_networks.py:13-106 | at most one finding per network number, each a duplicate router or duplicate network; `verbose` changes only the triples |
| DuplicateBbmds.TrackedSpec | src/graph_hopper/graph_checks/duplicate_bbmds.py:37-56 | only BBMD-typed subjects with at least one broadcast domain are tracked, each once |
| DuplicateBbmds.SubnetPairsSpec | src/graph_hopper/graph_checks/duplicate_bbmds.py:59-68 | a subnet is grouped iff a tracked BBMD serves it; its list holds exactly those BBMDs, and `has_bdt` holds iff the BBMD has a BDT entry |
| DuplicateBbmds.FindingSpec | src/graph_hopper/graph_checks/duplicate_bbmds.py:71-96 | a subnet is reported iff more than one BBMD serves it; the finding is an error exactly when two or more of them have BDT entries, else a warning; the BDT count never exceeds the BBMD count |
| DuplicateBbmds.OneBdtIsWarning | src/graph_hopper/graph_checks/duplicate_bbmds.py:74-85 | exactly one BBMD with BDT entries among several is only a warning |
| DuplicateBbmds.ReportedSubnets | src/graph_hopper/graph_checks/duplicate_bbmds.py:71-72 | a subnet has a finding iff more than one BBMD entry serves it |
| DuplicateBbmds.IssueTypes | src/graph_hopper/graph_checks/duplicate_bbmds.py:76-85 | every finding is a BBMD error or a BBMD warning |
| DuplicateBbmds.TrackBbmds | src/graph_hopper/graph_checks/duplicate_bbmds.py:39-56 | the first pass records the tracked BBMDs |
| DuplicateBbmds.BbmdTriples | src/graph_hopper/graph_checks/duplicate_bbmds.py:99-103 | every triple about each BBMD of the list, in order |
| DuplicateBbmds.ReportSubnets | src/graph_hopper/graph_checks/duplicate_bbmds.py:71-103 | one finding per subnet with more than one BBMD, in key order |
| DuplicateBbmds.FindingNamesSubnet | src/graph_hopper/graph_checks/duplicate_bbmds.py:87-95 | each finding names the subnet it was made for |
| DuplicateBbmds.CheckDuplicateBbmds | src/graph_hopper/graph_checks/duplicate_bbmds.py:13-109 | at most one finding per broadcast domain, each an error or a warning; `verbose` changes only the triples |
| DeviceAddressConflicts.ScopePairsSpec | src/graph_hopper/graph_checks/device_address_conflicts.py:41-91 | a scope's list holds exactly the Device-typed subjects in that network or subnet whose first address is non-empty, with that address; devices without an address are in no list |
| DeviceAddressConflicts.ConflictSpec | src/graph_hopper/graph_checks/device_address_conflicts.py:95-124 | a finding needs two or more devices of the scope with that address, lists exactly those devices, counts them, and is critical |
| DeviceAddressConflicts.ScopeMember | src/graph_hopper/graph_checks/device_address_conflicts.py:94-128 | a finding of one scope carries the pass's kind and that scope, and lists only devices of the scope with the finding's address |
| DeviceAddressConflicts.PassMember | src/graph_hopper/graph_checks/device_address_conflicts.py:94-128 | a finding of one pass is about one of its scopes |
| DeviceAddressConflicts.PassKinds | src/graph_hopper/graph_checks/device_address_conflicts.py:103-150 | every finding of one pass carries that pass's kind, network or subnet |
| DeviceAddressConflicts.ConflictMembers | src/graph_hopper/graph_checks/device_address_conflicts.py:94-165 | every reported device is in the reported scope with the reported address, so the same address on two different networks or subnets is never a conflict |
| DeviceAddressConflicts.ScopeConflictFound | src/graph_hopper/graph_checks/device_address_conflicts.py:98-124 | two different devices of a scope with the same address give a finding that lists both |
| DeviceAddressConflicts.SharedAddressReported | src/graph_hopper/graph_checks/device_address_conflicts.py:41-124 | two different addressed Devices with the same address on the same network, or on the same subnet, give a finding of that kind ("network" or "subnet") for that scope and address that lists both |
| DeviceAddressConflicts.CollectDevices | src/graph_hopper/graph_checks/device_address_conflicts.py:37-91 | the first pass builds exactly the network and subnet dictionaries `ScopePairsSpec` describes |
| DeviceAddressConflicts.DevicesOf | src/graph_hopper/graph_checks/device_address_conflicts.py:127-128 | the loop appends each conflicting device, in order |
| DeviceAddressConflicts.ReportScope | src/graph_hopper/graph_checks/device_address_conflicts.py:95-128 | one scope: its devices grouped by address, one finding per address held by two or more, each followed by its devices in the affected list |
| DeviceAddressConflicts.ReportPass | src/graph_hopper/graph_checks/device_address_conflicts.py:94-128 | every scope of one dictionary, in key order |
| DeviceAddressConflicts.SubnetsLast | src/graph_hopper/graph_checks/device_address_conflicts.py:94-165 | network findings followed by subnet findings put no network finding after a subnet finding |
| DeviceAddressConflicts.CheckDeviceAddressConflicts | src/graph_hopper/graph_checks/device_address_conflicts.py:18-167 | the findings are the network-scope conflicts followed by the subnet-scope conflicts, and the affected list is every device of every finding, in order |
| MissingRouters.DeviceNetworksSpec | src/graph_hopper/graph_checks/missing_routers.py:41-50 | a network has devices iff some Device is on it directly or through a subnet of it |
| MissingRouters.RoutedNetworksSpec | src/graph_hopper/graph_checks/missing_routers.py:53-66 | a network is routed iff some Router is on it, serves it, or is on a subnet of it |
| MissingRouters.CollectDeviceNetworks | src/graph_hopper/graph_checks/missing_routers.py:41-50 | the first loop collects exactly the device-bearing networks |
| MissingRouters.CollectRoutedNetworks | src/graph_hopper/graph_checks/missing_routers.py:53-66 | the second loop collects exactly the routed networks |
| MissingRouters.UrisOfDetails | src/graph_hopper/graph_checks/missing_routers.py:85-88 | each detail entry names the network it was made for |
| MissingRouters.Details | src/graph_hopper/graph_checks/missing_routers.py:77-88 | one entry per isolated network, each once, labelled by its first label or else its URI, in the set's iteration order |
| MissingRouters.CheckMissingRouters | src/graph_hopper/graph_checks/missing_routers.py:18-111 | with two or more device-bearing networks and at least one not routed, exactly one medium finding listing every such network once, and those networks are the affected nodes; otherwise nothing; the affected triples are always empty |
| UnreachableNetworks.NetworkName | src/graph_hopper/graph_checks/unreachable_networks.py:181-192 | a network's name is its first label, else "Network " and its first network number, else the text after the last '/' of its URI, or the whole URI |
| UnreachableNetworks.CollectTypedNetworks | src/graph_hopper/graph_checks/unreachable_networks.py:40-41 | the first loop collects exactly the BACnetNetwork-typed nodes |
| UnreachableNetworks.NetworksOfRouter | src/graph_hopper/graph_checks/unreachable_networks.py:55-67 | a router's networks are those it is on directly or through a subnet of it |
| UnreachableNetworks.ConnectOne | src/graph_hopper/graph_checks/unreachable_networks.py:74-76 | the inner loop gives one network every other network of the list as a connection |
| UnreachableNetworks.Connect | src/graph_hopper/graph_checks/unreachable_networks.py:72-76 | every network of a router's list gains every other network of that list as a connection, and nothing else changes |
| UnreachableNetworks.AddRouter | src/graph_hopper/graph_checks/unreachable_networks.py:54-76 | one router adds its networks to the known networks and connects them to one another |
| UnreachableNetworks.BuildTopology | src/graph_hopper/graph_checks/unreachable_networks.py:52-76 | the known networks are the typed networks plus every network a router is on; the connections are, for every network, the other networks sharing a router with it, whatever the router order |
| UnreachableNetworks.ConnectionsSymmetric | src/graph_hopper/graph_checks/unreachable_networks.py:73-76 | connections go both ways and never from a network to itself |
| UnreachableNetworks.ConnectionsInside | src/graph_hopper/graph_checks/unreachable_networks.py:58-67 | a connection leads from a known network to a known network |
| UnreachableNetworks.FindIslands | src/graph_hopper/graph_checks/unreachable_networks.py:79-110 | each network not yet on an island seeds a new one, its breadth-first closure; whatever the set's iteration order, the islands found are exactly the classes of mutually reachable networks, each once |
| UnreachableNetworks.IslandsCovered | src/graph_hopper/graph_checks/unreachable_networks.py:100-110 | islands of the analysis that hold every network are all the islands there are |
| UnreachableNetworks.IslandOfMember | src/graph_hopper/graph_checks/unreachable_networks.py:79-97 | every network of an island has that island as its own |
| UnreachableNetworks.IslandsPartition | src/graph_hopper/graph_checks/unreachable_networks.py:100-110 | the islands partition the networks: each is non-empty, two are equal or disjoint, and together they hold every network |
| UnreachableNetworks.IslandHasSelf | src/graph_hopper/graph_checks/unreachable_networks.py:79-97 | a network lies on its own island |
| UnreachableNetworks.IslandInside | src/graph_hopper/graph_checks/unreachable_networks.py:79-97 | an island holds known networks only |
| UnreachableNetworks.IslandsApart | src/graph_hopper/graph_checks/unreachable_networks.py:100-110 | two different islands share nothing |
| UnreachableNetworks.IslandApart | src/graph_hopper/graph_checks/unreachable_networks.py:103-110 | an island found by the loop shares nothing with the islands found before it |
| UnreachableNetworks.NetworksCovered | src/graph_hopper/graph_checks/unreachable_networks.py:103-110 | together the islands hold every network |
| UnreachableNetworks.OneIslandConnected | src/graph_hopper/graph_checks/unreachable_networks.py:113 | there is one island exactly when every network reaches every other, which is when nothing is reported |
| UnreachableNetworks.SingletonIsland | src/graph_hopper/graph_checks/unreachable_networks.py:112-113 | with two typed networks there is at least one island, so "not more than one" means one |
| UnreachableNetworks.PartialFits | src/graph_hopper/graph_checks/unreachable_networks.py:142-176 | a partial finding is high, names its network, counts the others on its island, and lists the island once each |
| UnreachableNetworks.IsolatedFits | src/graph_hopper/graph_checks/unreachable_networks.py:115-141 | the finding for a lone network is high, "isolated", with no reachable network |
| UnreachableNetworks.IslandFindings | src/graph_hopper/graph_checks/unreachable_networks.py:114-176 | one island yields one finding per network on it, each once, each fitting its network |
| UnreachableNetworks.PartialFindings | src/graph_hopper/graph_checks/unreachable_networks.py:144-176 | the loop over `list(island)` yields one partial finding per network, in list order |
| UnreachableNetworks.ReportIslands | src/graph_hopper/graph_checks/unreachable_networks.py:113-176 | the report loop names every network exactly once, and every finding fits its network |
| UnreachableNetworks.CheckUnreachableNetworks | src/graph_hopper/graph_checks/unreachable_networks.py:18-178 | nothing with fewer than two typed networks; otherwise nothing exactly when there is one island, and else one high finding per known network, each once, telling its island apart from the rest; the affected nodes are the findings' networks |
| SubnetMismatches.SubnetInfoSpec | src/graph_hopper/graph_checks/subnet_mismatches.py:38-60 | a subnet is recorded iff it is typed Subnet and its last address is non-empty; the record holds that address, its last label or its URI, and its last network |
| SubnetMismatches.BuildSubnetInfo | src/graph_hopper/graph_checks/subnet_mismatches.py:38-60 | the first loop builds exactly the records `SubnetInfoSpec` describes |
| SubnetMismatches.ExamineSpec | src/graph_hopper/graph_checks/subnet_mismatches.py:63-118 | a device is reported iff its last address and last subnet are non-empty, the subnet is recorded, and both texts parse with the address outside the subnet's network; the finding carries those values and the subnet's label |
| SubnetMismatches.CheckSubnetMismatches | src/graph_hopper/graph_checks/subnet_mismatches.py:19-120 | one finding per Device whose address lies outside its recorded subnet, in graph order, lined up with the affected nodes |
| SubnetMismatches.NonIpDevicePasses | src/graph_hopper/graph_checks/subnet_mismatches.py:144-147 | a device whose address text is not IPv4 (a BACnet MS/TP address, say) is never reported |
| Ipv4.ParseOctet | src/graph_hopper/graph_checks/subnet_mismatches.py:136 | a parsed octet is all digits and below 256 |
| Ipv4.ParseAddress | src/graph_hopper/graph_checks/subnet_mismatches.py:136 | a parsed address has exactly three dots, no '/', and is below 2^32 |
| Ipv4.PrefixFromString | src/graph_hopper/graph_checks/subnet_mismatches.py:139 | a prefix text parses iff it is all digits with value at most 32 |
| Ipv4.ParsePrefix | src/graph_hopper/graph_checks/subnet_mismatches.py:139 | a parsed prefix, netmask or hostmask gives a prefix length of at most 32 |
| Ipv4.ParseNetwork | src/graph_hopper/graph_checks/subnet_mismatches.py:139 | a parsed network has at most one '/', an address part that parses, and that address with its host bits cleared (`strict=False`) |
| Ipv4.MaskedTwice | src/graph_hopper/graph_checks/subnet_mismatches.py:139-142 | clearing the host bits twice is clearing them once |
| Ipv4.MaskedEqual | src/graph_hopper/graph_checks/subnet_mismatches.py:142 | two addresses have the same masked form iff their top `p` bits agree |
| Ipv4.IsIpInSubnetSpec | src/graph_hopper/graph_checks/subnet_mismatches.py:123-147 | the check fails exactly when both texts parse and the address's top prefix bits differ from the network's, whatever host bits the network text carried |
| Ipv4.ParseFormat | src/graph_hopper/graph_checks/subnet_mismatches.py:136 | round trip: the dotted decimal text of any address parses back to it |
| Ipv4.NonIpAddressesPass | src/graph_hopper/graph_checks/subnet_mismatches.py:144-147 | MS/TP-style and other non-IP address texts never fail the check |
| NetworkLoops.LinksSpec | src/graph_hopper/graph_checks/network_loops.py:199-211 | a (router, source, target) combination is met iff the router is a Router that is on the source network and serves the target |
| NetworkLoops.BuildValid | src/graph_hopper/graph_checks/network_loops.py:194-228 | both dictionaries list each key once and keep no repeated entries |
| NetworkLoops.BuildNetworks | src/graph_hopper/graph_checks/network_loops.py:214-217 | `b` is listed under `a` iff some router link joins them, in either direction |
| NetworkLoops.BuildKeys | src/graph_hopper/graph_checks/network_loops.py:208-217 | the networks are keyed in the order the links first mention them, source before target |
| NetworkLoops.BuildRouters | src/graph_hopper/graph_checks/network_loops.py:219-226 | a router is recorded under a connection key iff one of its links has that key in one of its two directions |
| NetworkLoops.AdjacencySymmetric | src/graph_hopper/graph_checks/network_loops.py:214-217 | the adjacency is symmetric |
| NetworkLoops.BuildNetworkGraphWithRouters | src/graph_hopper/graph_checks/network_loops.py:175-228 | the nested loops build exactly the adjacency and router dictionaries of all the links, in order |
| NetworkLoops.SearchFromFound | src/graph_hopper/graph_checks/network_loops.py:138-172 | from any start the depth-bounded search finds nothing or a loop of three to six networks through the start, each step an adjacency edge, no network twice |
| NetworkLoops.NormalizeLoop | src/graph_hopper/graph_checks/network_loops.py:125-126 | a normalised loop is a loop over the same networks that starts at its least network |
| NetworkLoops.FreshLoop | src/graph_hopper/graph_checks/network_loops.py:114-131 | a loop through a start not yet on any found loop never has the networks of a loop found before, so the duplicate test at line 129 never rejects anything |
| NetworkLoops.Consider | src/graph_hopper/graph_checks/network_loops.py:113-115 | one turn of the loop over the starts keeps the search's progress invariant; a start already seen is skipped |
| NetworkLoops.SearchStart | src/graph_hopper/graph_checks/network_loops.py:117-131 | the search from a start not yet seen keeps the progress invariant: the kept loops stay reported and inside the keys, the start and a kept loop's networks are marked as seen, and a start from which the search finds a loop ends up on a kept loop |
| NetworkLoops.LoopSearched | src/graph_hopper/graph_checks/network_loops.py:154-172 | along a loop of three to six networks, the search that has reached a network of it along the loop finds a loop: the rest of the loop is one of the paths it tries |
| NetworkLoops.TryNonEmpty | src/graph_hopper/graph_checks/network_loops.py:163-170 | the neighbour loop returns a loop when some neighbour closes a path of three or more or leads to a loop |
| NetworkLoops.LoopFound | src/graph_hopper/graph_checks/network_loops.py:118-121 | from every network of a loop of three to six networks, the search finds a loop |
| NetworkLoops.LoopsCovered | src/graph_hopper/graph_checks/network_loops.py:105-135 | when every start from which the search finds a loop is covered, every network of every loop of three to six networks is covered |
| NetworkLoops.LoopNeedsKeys | src/graph_hopper/graph_checks/network_loops.py:106-109 | a loop of three or more networks lies among the keys, so there are at least as many keys as it has networks |
| NetworkLoops.TriangleAll | src/graph_hopper/graph_checks/network_loops.py:106-109 | over three networks, a loop of three or more passes through all three |
| NetworkLoops.TriangleOnce | src/graph_hopper/graph_checks/network_loops.py:123-131 | over three networks, the reported loops are at most one, of loop size 3 |
| NetworkLoops.FindCycles | src/graph_hopper/graph_checks/network_loops.py:95-135 | nothing with fewer than three networks; otherwise the kept loops are loops of three to six networks, each starting at its least network, no two over the same networks; every network from which the search finds a loop ends up on one, and so does every network of every loop of three to six networks |
| NetworkLoops.LoopRouted | src/graph_hopper/graph_checks/network_loops.py:199-217 | each step of a loop, the wrap-around step included, is made by a Router on one of its two networks that serves the other |
| NetworkLoops.ChainHasNoLoop | src/graph_hopper/graph_checks/network_loops.py:138-172 | a chain of three networks has no loop of three or more |
| NetworkLoops.NameSpec | src/graph_hopper/graph_checks/network_loops.py:268-281 | a router or network name is the last '/'-separated piece of its URI: a suffix with no '/' |
| NetworkLoops.RoutersInLoopSpec | src/graph_hopper/graph_checks/network_loops.py:231-265 | every router once; a router is listed iff it is recorded under the key of some step of the loop, the wrap-around step included; each entry names such a step |
| NetworkLoops.FindRoutersInLoop | src/graph_hopper/graph_checks/network_loops.py:231-265 | the loop builds exactly the router entries `RoutersInLoopSpec` describes |
| NetworkLoops.IssuesOfLoops | src/graph_hopper/graph_checks/network_loops.py:71-90 | the findings, one per loop, give back the loops as their paths |
| NetworkLoops.ReportPair | src/graph_hopper/graph_checks/network_loops.py:39-66 | with two networks, one critical finding of size 2 and path [n1, n2, n1] exactly when each is listed under the other |
| NetworkLoops.ReportLoops | src/graph_hopper/graph_checks/network_loops.py:69-92 | with three or more networks, one finding per kept loop, and the affected nodes are the networks on them; every loop of three to six networks has all its networks affected, so there is a finding; over exactly three networks, a triangle gives exactly one critical finding of loop size 3 |
| NetworkLoops.CheckNetworkLoops | src/graph_hopper/graph_checks/network_loops.py:13-92 | nothing with fewer than two networks; with two, one critical finding iff a router link joins them; with more, one critical finding per kept loop, every network of every loop of three to six networks is affected and there is a finding, and over exactly three networks a triangle gives exactly one critical finding of loop size 3; the affected triples are always empty |
| OversizedNetworks.DeviceCountsSpec | src/graph_hopper/graph_checks/oversized_networks.py:52-64 | under each network the counts hold exactly the devices on it, directly or through a subnet, each once; only typed networks with a device are keys; a network's count is the number of its devices |
| OversizedNetworks.CountDevices | src/graph_hopper/graph_checks/oversized_networks.py:52-64 | the two counting loops build exactly those device sets |
| OversizedNetworks.NoNetworksNoCounts | src/graph_hopper/graph_checks/oversized_networks.py:48-49 | without typed networks nothing is counted |
| OversizedNetworks.FirstMatchSpec | src/graph_hopper/graph_checks/oversized_networks.py:158-180 | nothing matches iff no value is recognised; otherwise the result is that of the first recognised value |
| OversizedNetworks.FirstRecognised | src/graph_hopper/graph_checks/oversized_networks.py:159-168 | the scan with early return yields the first recognised value |
| OversizedNetworks.Sample | src/graph_hopper/graph_checks/oversized_networks.py:205 | the sample is the first ten addresses, or all of them when there are fewer |
| OversizedNetworks.SampleOfTen | src/graph_hopper/graph_checks/oversized_networks.py:205 | addresses after the tenth never change the vote |
| OversizedNetworks.RangeCheckDropped | src/graph_hopper/graph_checks/oversized_networks.py:209-214 | "999.999.999.999" counts as IP-like, since the result of the range test is discarded, although it is no IPv4 address |
| OversizedNetworks.VoteOnAddresses | src/graph_hopper/graph_checks/oversized_networks.py:201-238 | the sampling loop yields the vote of the IP-like and numeric counts |
| OversizedNetworks.DetectTypeRange | src/graph_hopper/graph_checks/oversized_networks.py:141-241 | the detected type is one of mstp, ip, arcnet, ptp and other, never "ethernet" |
| OversizedNetworks.DetectTypeOrder | src/graph_hopper/graph_checks/oversized_networks.py:158-180 | a recognised network-type value decides the type whatever the label, URI and addresses say; a label decides only when no network-type value is recognised |
| OversizedNetworks.DetectNetworkType | src/graph_hopper/graph_checks/oversized_networks.py:141-241 | the method computes the detected type, which has a threshold entry and is never "ethernet" |
| OversizedNetworks.Thresholds | src/graph_hopper/graph_checks/oversized_networks.py:244-267 | every pair warns before it turns critical and never below two devices; an unknown type gets the "other" pair (25, 50) |
| OversizedNetworks.Assess | src/graph_hopper/graph_checks/oversized_networks.py:67-107 | a finding exactly from the warning threshold on; critical from the critical threshold on, else a warning; the threshold recorded is the one crossed |
| OversizedNetworks.TypeMatters | src/graph_hopper/graph_checks/oversized_networks.py:258-260 | from 15 to 49 devices an MS/TP network is flagged where an IP network is not, critical from 30 |
| OversizedNetworks.ExamineSpec | src/graph_hopper/graph_checks/oversized_networks.py:67-107 | a network is reported iff it is a typed network whose device count reaches the warning threshold of its detected type; the finding counts exactly its devices and is critical iff the count reaches the critical threshold |
| OversizedNetworks.IssuesSpec | src/graph_hopper/graph_checks/oversized_networks.py:67-119 | the findings are those of the networks reaching their warning threshold, in first-device order, each network once |
| OversizedNetworks.EvaluateNetwork | src/graph_hopper/graph_checks/oversized_networks.py:68-119 | the loop body yields the assessment of one counted network |
| OversizedNetworks.EvaluateAll | src/graph_hopper/graph_checks/oversized_networks.py:67-119 | the evaluation loop yields the assessments of the counted networks, in key order, and affects exactly the reported networks |
| OversizedNetworks.ReportedNetworks | src/graph_hopper/graph_checks/oversized_networks.py:67-119 | the reported networks, restated through the device sets |
| OversizedNetworks.CheckOversizedNetworks | src/graph_hopper/graph_checks/oversized_networks.py:16-121 | one finding per counted network whose device count reaches the warning threshold of its type, in first-device order; the affected nodes are those networks; a graph without networks has no findings |
| BroadcastDomains.RangeSpec | src/graph_hopper/graph_checks/broadcast_domains.py:153-169 | a range is found only for text whose IP part is an IPv4 address; it names the /24 network of that address, which contains the address |
| BroadcastDomains.ExtractIpRanges | src/graph_hopper/graph_checks/broadcast_domains.py:149-171 | the loop collects exactly the ranges of the addresses, each coming from some address |
| BroadcastDomains.Scope | src/graph_hopper/graph_checks/broadcast_domains.py:174-185 | local iff no range, subnet iff one, moderate iff two or three, wide iff four or more |
| BroadcastDomains.ScopeMonotone | src/graph_hopper/graph_checks/broadcast_domains.py:174-185 | more ranges never narrow the scope, and the scope is moderate or wide exactly when there is more than one range |
| BroadcastDomains.MapSubnets | src/graph_hopper/graph_checks/broadcast_domains.py:96-102 | the subnet loop gives each network exactly its Subnet-typed subnets |
| BroadcastDomains.CollectDevices | src/graph_hopper/graph_checks/broadcast_domains.py:111-116 | the devices of a domain are those on the network directly or on one of its subnets |
| BroadcastDomains.AddBbmdsOn | src/graph_hopper/graph_checks/broadcast_domains.py:120-122 | the inner loop adds exactly the BBMD-typed subjects on one subnet |
| BroadcastDomains.CollectBbmds | src/graph_hopper/graph_checks/broadcast_domains.py:119-122 | the BBMDs of a domain are the BBMD-typed subjects on its subnets |
| BroadcastDomains.CollectAddresses | src/graph_hopper/graph_checks/broadcast_domains.py:125-129 | the address loop collects every address of every device of the domain |
| BroadcastDomains.RangesOfAddresses | src/graph_hopper/graph_checks/broadcast_domains.py:125-131 | the ranges depend only on which addresses are collected, not on the set's iteration order |
| BroadcastDomains.DomainSpec | src/graph_hopper/graph_checks/broadcast_domains.py:96-144 | a domain holds a subnet iff it is a Subnet of the network; a device iff it is on the network directly or on one of those subnets; a BBMD iff it is BBMD-typed and on one of them; a range iff some device of the domain has an address in it |
| BroadcastDomains.AnalyzeDomain | src/graph_hopper/graph_checks/broadcast_domains.py:105-144 | the loop body builds exactly the domain of one network |
| BroadcastDomains.AnalyzeBroadcastDomains | src/graph_hopper/graph_checks/broadcast_domains.py:79-146 | one domain per network, each network once, each the domain `DomainSpec` describes |
| BroadcastDomains.DomainsMember | src/graph_hopper/graph_checks/broadcast_domains.py:105-144 | a network is among the domains iff it is a typed network of the graph |
| BroadcastDomains.LargeFinding | src/graph_hopper/graph_checks/broadcast_domains.py:193-231 | a finding iff five or more subnets or 200 or more devices; critical iff ten or more subnets or 500 or more devices, else a warning; the counts and scope are the domain's |
| BroadcastDomains.CheckLargeBroadcastDomains | src/graph_hopper/graph_checks/broadcast_domains.py:188-243 | the size findings of the domains that have one, in domain order |
| BroadcastDomains.NeedsBbmdSpec | src/graph_hopper/graph_checks/broadcast_domains.py:257-262 | the scope clause adds nothing: a domain needs a BBMD iff it has more than two subnets, more than 100 devices or more than one range |
| BroadcastDomains.BbmdCount | src/graph_hopper/graph_checks/broadcast_domains.py:396-405 | the number of BBMDs proposed is the fewest that give each at most three subnets, and at least one |
| BroadcastDomains.CoverageFinding | src/graph_hopper/graph_checks/broadcast_domains.py:257-282 | a warning iff the domain needs a BBMD and has none |
| BroadcastDomains.CheckMissingBbmdCoverage | src/graph_hopper/graph_checks/broadcast_domains.py:246-293 | the coverage findings of the domains that have one, in domain order |
| BroadcastDomains.InefficientPlacement | src/graph_hopper/graph_checks/broadcast_domains.py:296-306 | the placement pass reports nothing |
| BroadcastDomains.GroupDomain | src/graph_hopper/graph_checks/broadcast_domains.py:316-318 | one domain's network is appended under each of its ranges |
| BroadcastDomains.OverlapSpec | src/graph_hopper/graph_checks/broadcast_domains.py:321-345 | one finding per range held by at least two domains, each range once, listing the networks holding it |
| BroadcastDomains.ReportOverlaps | src/graph_hopper/graph_checks/broadcast_domains.py:321-345 | the reporting loop yields the overlap finding of every range key that has one, in key order |
| BroadcastDomains.CheckBroadcastDomainOverlap | src/graph_hopper/graph_checks/broadcast_domains.py:309-347 | a finding for exactly the ranges held by more than one domain, once each, each listing the domains holding it in domain order |
| BroadcastDomains.SharingInGraph | src/graph_hopper/graph_checks/broadcast_domains.py:314-318 | the networks listed under a range are exactly the networks whose domain holds it, each once |
| BroadcastDomains.LargeInGraph | src/graph_hopper/graph_checks/broadcast_domains.py:188-243 | over the graph's domains, one size finding per network whose domain calls for one |
| BroadcastDomains.CoverageInGraph | src/graph_hopper/graph_checks/broadcast_domains.py:246-293 | over the graph's domains, one coverage finding per network whose domain calls for one |
| BroadcastDomains.OverlapInGraph | src/graph_hopper/graph_checks/broadcast_domains.py:309-347 | the overlap findings restated over the graph: each lists the networks sharing its range, at least two |
| BroadcastDomains.AffectedNodes | src/graph_hopper/graph_checks/broadcast_domains.py:68-74 | a node is affected iff some finding names it as its network or among its affected networks |
| BroadcastDomains.KindsApart | src/graph_hopper/graph_checks/broadcast_domains.py:62-65 | in the concatenation of the passes, the findings of each kind are those of its pass |
| BroadcastDomains.CheckBroadcastDomains | src/graph_hopper/graph_checks/broadcast_domains.py:15-76 | a size or coverage finding is reported for exactly the networks whose domains call for one; an overlap finding for exactly the ranges two or more networks' domains hold, once each, listing those networks; the affected nodes are the networks the findings name |
| RoutingGraph.BuiltConnections | src/graph_hopper/graph_checks/routing_inefficiencies.py:108-119 | the connections of a built routing graph go both ways, never join a network to itself, and join only networks of the graph |
| RoutingGraph.RecordOn | src/graph_hopper/graph_checks/routing_inefficiencies.py:100-102 | recording that a router is on a network adds that network to the router's set and the router to the network's set, and changes nothing else |
| RoutingGraph.AddOnNetworks | src/graph_hopper/graph_checks/routing_inefficiencies.py:97-102 | the router's set gains exactly the networks of the graph it is on, and each of those networks gains the router |
| RoutingGraph.AddServedNetworks | src/graph_hopper/graph_checks/routing_inefficiencies.py:103-105 | the router's served set gains exactly the networks of the graph it serves |
| RoutingGraph.JoinOne | src/graph_hopper/graph_checks/routing_inefficiencies.py:112-119 | after one network the router is on, `b` is connected from `a` iff it was before or the router joins them through that network |
| RoutingGraph.JoinRouter | src/graph_hopper/graph_checks/routing_inefficiencies.py:110-119 | after one router, `b` is connected from `a` iff it was before or the router joins them: two different networks, one it is on and one it serves, either way round |
| RoutingGraph.Connect | src/graph_hopper/graph_checks/routing_inefficiencies.py:108-119 | `b` is connected from `a` iff some router of the router map joins them |
| RoutingGraph.AddRouter | src/graph_hopper/graph_checks/routing_inefficiencies.py:95-105 | after each router of the first loop, the router, served and network maps hold exactly the networks and routers of the routers handled so far |
| RoutingGraph.ConnectedJoined | src/graph_hopper/graph_checks/routing_inefficiencies.py:108-119 | a router of the router map joins two networks iff some router of the graph does |
| RoutingGraph.BuildRoutingGraph | src/graph_hopper/graph_checks/routing_inefficiencies.py:78-128 | the routing graph lists the graph's routers and networks; maps each router to the networks it is on and to those it serves, each network to the routers on it; and connects two networks iff some router is on one and serves the other |
| RoutingLoops.CycleLoop | src/graph_hopper/graph_checks/routing_inefficiencies.py:151-153 | a neighbour already on the search path closes a loop: the path from it back to it is a loop of the connection map |
| RoutingLoops.DfsCycleDetect | src/graph_hopper/graph_checks/routing_inefficiencies.py:141-156 | the depth-first search records only loops of the connection map and finishes every network it visits. Where connections go both ways, it puts every network it visits on a recorded loop of two networks. It keeps the search tree (`Forest`): while no recorded loop has three or more networks, every connection out of a finished network goes one level down the tree or to the network's parent |
| RoutingLoops.Explore | src/graph_hopper/graph_checks/routing_inefficiencies.py:147-155 | one neighbour of the search: it is visited afterwards, only loops are recorded, and the loops already recorded are kept. While the recorded loops stay short, the neighbour is a child one level down, or the network the search came from; a stacked neighbour that is neither records a longer loop |
| RoutingLoops.ExploreAll | src/graph_hopper/graph_checks/routing_inefficiencies.py:146-156 | the loop over a network's neighbours: each is visited, the two-network loops are recorded, and, while the recorded loops stay short, every neighbour is linked to the network as in a tree |
| RoutingLoops.RecordLoop | src/graph_hopper/graph_checks/routing_inefficiencies.py:149-154 | a neighbour on the stack: only loops are recorded and those already recorded are kept. Meeting the network the search came from records the two-network loop back to it. Meeting any other stacked network but itself records a loop of three or more networks |
| RoutingLoops.FindLoops | src/graph_hopper/graph_checks/routing_inefficiencies.py:158-161 | every recorded loop is a loop of the connection map. Where connections go both ways and never join a network to itself, every network with a connection lies on a recorded loop of two networks, and a loop of three or more networks through a searched network makes the search record a loop of three or more networks |
| RoutingLoops.TreeHasNoLongLoop | src/graph_hopper/graph_checks/routing_inefficiencies.py:141-156 | where connections go both ways, a part of the map in which every connection goes one level down the search tree or to the parent holds no loop of three or more networks, so the search (a tree plus the connections it records loops for) cannot miss one |
| RoutingLoops.LongLoopNotTree | src/graph_hopper/graph_checks/routing_inefficiencies.py:141-156 | a loop of three or more networks has a connection that is no tree link: at its deepest network, the next and the previous networks differ and cannot both be its parent |
| RoutingLoops.Normalize | src/graph_hopper/graph_checks/routing_inefficiencies.py:164-168 | the normalised loop has the length of the loop it comes from |
| RoutingLoops.NormalizeLoop | src/graph_hopper/graph_checks/routing_inefficiencies.py:164-168 | a normalised loop is a loop over the same networks that starts and ends at its least network |
| RoutingLoops.AddStepRouters | src/graph_hopper/graph_checks/routing_inefficiencies.py:178-186 | the routers joining two consecutive networks of a loop are added to those collected so far |
| RoutingLoops.FindLoopRouters | src/graph_hopper/graph_checks/routing_inefficiencies.py:175-186 | the loop's routers are exactly those joining two consecutive networks of the loop |
| RoutingLoops.LoopIssueFinding | src/graph_hopper/graph_checks/routing_inefficiencies.py:164-214 | the finding made of a recorded loop is a loop finding: its path starts at its least network, it lists that loop's networks and routers, and it is critical iff the loop has at most four networks |
| RoutingLoops.PairIssue | src/graph_hopper/graph_checks/routing_inefficiencies.py:164-214 | the finding for a loop through two networks has length 2, names both networks, and is critical |
| RoutingLoops.ReportLoop | src/graph_hopper/graph_checks/routing_inefficiencies.py:164-214 | one recorded loop handled: its normalised form is reported once, and only if not reported before |
| RoutingLoops.PairsReported | src/graph_hopper/graph_checks/routing_inefficiencies.py:164-214 | a network on a recorded loop of two networks is named by a critical loop finding of length 2 |
| RoutingLoops.LongReported | src/graph_hopper/graph_checks/routing_inefficiencies.py:164-214 | a recorded loop of three or more networks is reported as a finding with `loop_length` of at least 3 |
| RoutingLoops.TriangleCritical | src/graph_hopper/graph_checks/routing_inefficiencies.py:188-193 | on three networks, a loop finding of three or more networks has `loop_length` 3 and is critical |
| RoutingLoops.CheckRoutingLoops | src/graph_hopper/graph_checks/routing_inefficiencies.py:131-216 | every finding is a loop finding of the connection map, and no two findings share a loop path. Where connections go both ways and never join a network to itself, every connected network is on a critical loop finding of length 2, and a loop of three or more networks through a network gives a finding with `loop_length` of at least 3 |
| RoutingPaths.RouteBound | src/graph_hopper/graph_checks/routing_inefficiencies.py:226-240 | once the search is done, every route from the source ends at a recorded network no farther than the route's length |
| RoutingPaths.SearchStep | src/graph_hopper/graph_checks/routing_inefficiencies.py:230-240 | one step of the breadth-first search keeps its distances exact, its queue in distance order, and its recorded networks reachable; it records more or shortens the queue |
| RoutingPaths.Expand | src/graph_hopper/graph_checks/routing_inefficiencies.py:234-240 | expanding a network records each unrecorded neighbour one hop farther, with its route, and queues it |
| RoutingPaths.SearchDone | src/graph_hopper/graph_checks/routing_inefficiencies.py:226-240 | when the queue is empty, the recorded distances are shortest and the recorded networks are exactly those reachable from the source |
| RoutingPaths.ShortestPaths | src/graph_hopper/graph_checks/routing_inefficiencies.py:226-240 | the recorded networks are exactly those reachable from the source; each has a route of its recorded distance and no shorter route |
| RoutingPaths.ReportFar | src/graph_hopper/graph_checks/routing_inefficiencies.py:243-272 | a finding is made for every recorded network more than four hops away, each a shortest route of more than four hops with a ten-percent-per-hop latency estimate, no target twice |
| RoutingPaths.FarReported | src/graph_hopper/graph_checks/routing_inefficiencies.py:243-272 | every network reachable from the source only in more than four hops is the target of a finding |
| RoutingPaths.PathsFrom | src/graph_hopper/graph_checks/routing_inefficiencies.py:226-272 | the findings for one source: each a shortest route of more than four hops from it, no target twice, and every network only reachable in more than four hops reported |
| RoutingPaths.CheckSuboptimalPaths | src/graph_hopper/graph_checks/routing_inefficiencies.py:219-274 | every finding is a shortest route of more than four hops from a network of the graph; no pair is reported twice; every pair reachable only in more than four hops is reported |
| RoutingLinks.IsolationAt | src/graph_hopper/graph_checks/routing_inefficiencies.py:286-314 | one network: a finding exactly when it has one router and more than one connected network, naming that router and those networks |
| RoutingLinks.CheckRouterIsolation | src/graph_hopper/graph_checks/routing_inefficiencies.py:277-317 | every finding names the only router of its network and that network's connections, more than one; every such network is reported, none twice |
| RoutingLinks.IsolationInGraph | src/graph_hopper/graph_checks/routing_inefficiencies.py:277-317 | over the graph, an isolation finding names the one router on its network, and its connected networks are those some router joins to it |
| RoutingLinks.OneWayFrom | src/graph_hopper/graph_checks/routing_inefficiencies.py:328-333 | the pairs from one network are exactly its one-way connections, each once |
| RoutingLinks.OneWayPairs | src/graph_hopper/graph_checks/routing_inefficiencies.py:328-333 | the pairs are exactly the connections recorded in one direction only, each once |
| RoutingLinks.CheckAsymmetricRouting | src/graph_hopper/graph_checks/routing_inefficiencies.py:320-361 | a finding is made for exactly the connections recorded in one direction only, each once |
| RoutingLinks.NoAsymmetryWhenBuilt | src/graph_hopper/graph_checks/routing_inefficiencies.py:78-128 | a routing graph built from a graph yields no asymmetric-routing finding |
| RoutingRedundancy.ChildMakesTwo | src/graph_hopper/graph_checks/routing_inefficiencies.py:393-398 | a point found as a root with two search children, or as a non-root with a child, has at least two neighbours where connections go both ways |
| RoutingRedundancy.ArticulationSearch.constructor | src/graph_hopper/graph_checks/routing_inefficiencies.py:373-377 | the search starts with nothing visited, no search parents, no points and the clock at zero |
| RoutingRedundancy.ArticulationSearch.BridgeUtil | src/graph_hopper/graph_checks/routing_inefficiencies.py:379-403 | visiting a network keeps the search state consistent, visits the network, and keeps the search parents already set |
| RoutingRedundancy.ArticulationSearch.SearchChild | src/graph_hopper/graph_checks/routing_inefficiencies.py:387-399 | searching an unvisited neighbour keeps the search state consistent and visits that neighbour |
| RoutingRedundancy.ArticulationSearch.AfterChild | src/graph_hopper/graph_checks/routing_inefficiencies.py:393-401 | the low-link update and point test after a visited neighbour keep the search state consistent |
| RoutingRedundancy.FindArticulationPoints | src/graph_hopper/graph_checks/routing_inefficiencies.py:371-409 | the points found are networks of the topology, and where connections go both ways each has at least two neighbours |
| RoutingRedundancy.CheckMissingRedundancy | src/graph_hopper/graph_checks/routing_inefficiencies.py:364-441 | with at most two networks nothing is reported; each finding names a network of the topology with at least two connections (where connections go both ways) and lists its connections; no network is reported twice |
| RoutingInefficiencies.AffectedNodes | src/graph_hopper/graph_checks/routing_inefficiencies.py:63-73 | a node is affected iff some finding names it as its router, its network, or among its path or loop routers |
| RoutingInefficiencies.Concatenated | src/graph_hopper/graph_checks/routing_inefficiencies.py:53-60 | the findings of the five passes, concatenated, each state what their kind says and come in pass order |
| RoutingInefficiencies.RunPasses | src/graph_hopper/graph_checks/routing_inefficiencies.py:53-60 | the five passes in order. Where connections go both ways: no asymmetric finding; every connected network is on a critical two-network loop; a loop of three or more networks gives a loop finding of at least 3 networks. Every far pair and every isolated network is reported; no redundancy finding with at most two networks |
| RoutingInefficiencies.CheckRoutingInefficiencies | src/graph_hopper/graph_checks/routing_inefficiencies.py:13-75 | the routing graph is built from the graph's routers and networks. No asymmetric finding is ever reported. Every connected network is on a critical two-network loop finding. Every loop of three or more networks gives a loop finding of at least 3 networks of the graph, so on three networks a triangle gives a critical finding of length 3. Every far pair and every isolated network is reported. No redundancy finding with at most two networks. No affected triples. The affected nodes are those the findings name |
| RoutingInefficiencies.LoopsInside | src/graph_hopper/graph_checks/routing_inefficiencies.py:108-119 | the networks of every loop finding, and every loop of the built connections, lie among the graph's networks |
| RoutingInefficiencies.NameFromUri | src/graph_hopper/graph_checks/routing_inefficiencies.py:444-455 | the readable name is the last '/'-separated piece of the URI: it has no '/', ends the URI, and is the whole URI when there is no '/' |
| Registry.OrderListsAll | src/graph_hopper/graph_checks/registry.py:29-100 | the registration order lists every issue type, once |
| Registry.NamesDiffer | src/graph_hopper/graph_checks/registry.py:29-100 | different issue types are registered under different keys, and none is "all" |
| Registry.NamesSpec | src/graph_hopper/graph_checks/registry.py:102-104 | a key is among the keys of a list of types iff its type is in the list; distinct types give distinct keys |
| Registry.Lookup | src/graph_hopper/graph_checks/registry.py:112 | a key that is found is the key of the type found |
| Registry.LookupName | src/graph_hopper/graph_checks/registry.py:29-100 | every issue type is found under its own key |
| Registry.RelatedAreSiblings | src/graph_hopper/graph_checks/registry.py:29-100 | an entry with its related types lists exactly the types of its analyzer, once each; they agree on being single checks; only multi-type entries have related types |
| Registry.SingleMeansAlone | src/graph_hopper/graph_checks/registry.py:29-100 | an entry is a single check iff it is the only type its analyzer serves |
| Registry.AllIssueTypes | src/graph_hopper/graph_checks/registry.py:102-104 | the keys are listed once each, and a key is listed iff it is registered |
| Registry.CliChoices | src/graph_hopper/graph_checks/registry.py:106-108 | the choices are the registered keys followed by "all", each once |
| Registry.IssueDescription | src/graph_hopper/graph_checks/registry.py:110-112 | a registered key gets its entry's description; any other string gets "Unknown issue type" |
| Registry.KnownDescription | src/graph_hopper/graph_checks/registry.py:29-100 | no entry's description is "Unknown issue type", so the description tells registered keys apart from the rest |
| Registry.IsSingleCheck | src/graph_hopper/graph_checks/registry.py:191-193 | an unregistered key counts as a single check; a registered one iff it is the only type of its analyzer |
| Registry.ResolveIssuesToCheck | src/graph_hopper/graph_checks/registry.py:114-136 | "all" gives every key in registration order; any other key comes first, once; a registered key brings exactly the keys of its analyzer's types; a single check or unregistered key comes alone |
| Registry.IssuesByCategory | src/graph_hopper/graph_checks/registry.py:184-189 | the keys listed are exactly those of the types filed under the category, once each |
| Registry.Bucket | src/graph_hopper/graph_checks/registry.py:161-177 | a single check files everything its analyzer returned; a multi-type entry files exactly that analyzer's findings carrying its key |
| Registry.ExecuteOne | src/graph_hopper/graph_checks/registry.py:154-180 | handling one more requested key keeps the record of what was run: each analyzer called once, in request order, with its buckets filed and its affected items appended |
| Registry.ExecuteChecks | src/graph_hopper/graph_checks/registry.py:138-182 | each analyzer needed by a registered requested key is called exactly once and no other; the affected items are those of the called analyzers, in call order; exactly the types those analyzers serve are filed, each with its bucket |
| Registry.SplitLosesNothing | src/graph_hopper/graph_checks/registry.py:173-177 | when every finding of a multi-type analyzer carries one of its two keys, the two buckets together hold all its findings |
| UrlParsing.ParseHostUrl | src/graph_hopper/utils/url_parsing.py:12-88 | the empty-input error is raised iff the input is missing or blank; input without "://" always succeeds with an "http://" URL; an invalid-URL error only comes from input with "://" and repeats the stripped input |
| UrlParsing.FromUrl | src/graph_hopper/utils/url_parsing.py:39-56 | the URL branch never raises the empty-input error, and an invalid-URL error names its input |
| UrlParsing.FromHost | src/graph_hopper/utils/url_parsing.py:58-88 | the host branch always gives an "http://" URL |
| UrlParsing.SplitScheme | src/graph_hopper/utils/url_parsing.py:40 | the scheme `urlparse` splits off is empty or a letter followed by scheme characters |
| UrlParsing.DropParams | src/graph_hopper/utils/url_parsing.py:40 | cutting off the parameters leaves a prefix of the path |
| UrlParsing.UrlParse | src/graph_hopper/utils/url_parsing.py:40 | a parsed scheme is empty or well formed; the only error is an unbalanced IPv6 bracket |
| UrlParsing.PortOf | src/graph_hopper/utils/url_parsing.py:52 | a port that is read is at most 65535; a port that cannot be read is not an integer or out of range |
| UrlParsing.ResultIsSchemeLed | src/graph_hopper/utils/url_parsing.py:12-88 | every URL returned starts with a scheme followed by "://" |
| UrlParsing.PlainHostGetsDefaults | src/graph_hopper/utils/url_parsing.py:58-60 | a plain host name, with or without a trailing slash, becomes "http://<host>:8000" |
| UrlParsing.HostWithPortKeepsIt | src/graph_hopper/utils/url_parsing.py:78-82 | "host:port" with a port of digits, with or without a trailing slash, becomes "http://host:port" |
| UrlParsing.HostWithOtherTextGetsDefaults | src/graph_hopper/utils/url_parsing.py:78-85 | "host:text" with text that is not digits is taken as a host name and gets ":8000" |
| UrlParsing.BracketedAddressKeepsPort | src/graph_hopper/utils/url_parsing.py:62-68 | a bracketed IPv6 address keeps its port, or gets 8000 when it has none |
| UrlParsing.BareAddressGetsBrackets | src/graph_hopper/utils/url_parsing.py:70-76 | an address with two or more colons is bracketed and gets port 8000 |
| UrlParsing.UrlWithoutPortGetsDefault | src/graph_hopper/utils/url_parsing.py:39-54 | a URL without a port gets the lower-cased host name and the default port, 443 for https and 8000 otherwise, and loses a lone "/" path |
| UrlParsing.UrlWithPort | src/graph_hopper/utils/url_parsing.py:39-56 | a URL with port 0 gets the default port; ports 1 to 65535 are kept with the network location as written; larger ones are refused |
| UrlParsing.UrlWithBadPortRefused | src/graph_hopper/utils/url_parsing.py:52 | a URL whose port is not made of digits is refused with that port |
| UrlParsing.UrlWithoutHostRefused | src/graph_hopper/utils/url_parsing.py:43-44 | a URL with a scheme but no network location is refused as invalid |
| UrlParsing.UrlWithoutSchemeRefused | src/graph_hopper/utils/url_parsing.py:43-44 | a URL with "://" but no scheme is refused as invalid |
| UrlParsing.NormalFormIsFixed | src/graph_hopper/utils/url_parsing.py:12-88 | the URL a plain host, or a plain host with a port from 1 to 65535, becomes is returned unchanged when parsed again |

## Left out

- Set and dictionary iteration order: Python iterates sets of strings in an order fixed by string hashing, which varies between runs. Where the output order depends on it, the model takes the members in an arbitrary order, through a choice that nothing constrains. Where the source builds a set from the graph's triples, the model uses triple order, which is one possible order.
- `defaultdict` lookups: a key that a lookup creates with an empty set is treated the same as a missing key (`Reach.Succ`). In the source, such empty entries only arise in dictionaries that are read by key and never iterated, so no finding depends on the difference.
- Finding prose: descriptions, recommendations, performance-impact texts and `verbose_description` strings are not modelled. This includes `_get_recommendation` and `_get_device_breakdown` in oversized_networks.py, `_get_broadcast_performance_impact`, `_get_broadcast_domain_recommendation` and `_explain_bbmd_need` in broadcast_domains.py, and `_get_loop_performance_impact` and `_get_loop_recommendation` in routing_inefficiencies.py. Only the phrases that tell findings apart are kept, such as "not a valid number" and "reserved value".
- Exceptions: the `except Exception` handlers that turn any error into empty results (duplicate_devices.py:104-106, duplicate_networks.py:102-104, duplicate_bbmds.py:105-107) are not modelled. The model's functions are total and never raise.
- Text: `str.isdigit`, `str.lower`, `int()` and the regular expression `\d` are modelled on ASCII only. Unicode digits and case mappings are not modelled.
- IPv6 in subnet_mismatches.py:136-147: `ipaddress.ip_address` and `ip_network` accept IPv6 text, but the model treats it as unparsable, so `_is_ip_in_subnet` comes out True for it. The source returns False there, and so reports a mismatch, in three cases: an IPv6 device address on an IPv4 subnet, an IPv4 address on an IPv6 subnet (membership across versions is False), and an IPv6 address outside an IPv6 subnet. The model does not report these findings. broadcast_domains.py:164 parses with `IPv4Address` only, so it loses nothing there.
- `subnet_to_network` in broadcast_domains.py:96-101 is filled but never read, so it is not modelled.
- Recursion depth: `dfs_cycle_detect` (routing_inefficiencies.py:141-148) and `bridge_util` (routing_inefficiencies.py:379-389) recurse once per network on the search path. Under Python's default limit of 1000 frames, a chain of about a thousand networks makes `check_routing_inefficiencies` raise `RecursionError`. `RoutingLoops.DfsCycleDetect` and `RoutingRedundancy.ArticulationSearch.BridgeUtil` have no depth limit and return findings there.
- Node kinds: nodes are modelled as their text (`Node` is a string), so an rdflib `Literal` and a `URIRef` with the same text are the same node. For example, `(n, RDF.type, X) in graph` is False in the source for a Literal `n`, but true in the model whenever the URI with that text has the type.
- `_build_network_graph` (network_loops.py:284-321) is never called, so it is not modelled.
- `rec_stack` in `_check_routing_loops` is modelled as the set of networks on the current search path, which is what it holds at every step.
- Lists built with `list(...)` from a set are modelled as sets or as sequences without repeats.
- RoutingRedundancy.FindArticulationPoints: weaker than the source's promise. It proves that the points are networks of the topology and that, where connections go both ways, each has at least two neighbours. It does not prove that removing a point disconnects the topology, the defining property of an articulation point.
- RoutingRedundancy.ArticulationSearch.BridgeUtil: weaker than the source's promise. Only the consistency of the search state and the facts about visited networks and search parents are proved, not the correctness of the discovery times and low links.
- RoutingRedundancy.ArticulationSearch.SearchChild: weaker than the source's promise, for the same reason as `BridgeUtil`.
- RoutingRedundancy.ArticulationSearch.AfterChild: weaker than the source's promise, for the same reason as `BridgeUtil`.
- RoutingRedundancy.CheckMissingRedundancy: weaker than the source's promise. It does not state that each reported network is an articulation point, for the reason given for `FindArticulationPoints`.
- Registry: the analyzers are abstract. `execute_checks` is modelled over any function that gives each analyzer its findings and affected items.
- Registry.ExecuteChecks: `all_issues` is modelled as a map keyed by issue type, so the insertion order of its keys is not modelled.
- Registry.ExecuteChecks: every analyzer is taken to return a pair. As written, `check_missing_routers` (missing_routers.py:111) returns three values, so the unpacking at registry.py:164 raises whenever "missing-routers" is requested, directly or through "all". That exception is not modelled.
- UrlParsing.UrlParse: only the part of `urllib.parse.urlparse` that `parse_host_url` depends on is modelled. That part is:
  - the scheme split;
  - the network location;
  - cutting off the query, the fragment and the `;` parameters;
  - the bracket check;
  - the `port` and `hostname` properties.

  Checks of bracketed host contents, NFKC normalisation checks and differences between Python versions are not modelled; the behaviour follows Python 3.12.
- UrlParsing.NormalFormIsFixed: re-parsing a result gives the same result only for plain host names with no port or a port from 1 to 65535. Other cases do not hold. For example, "localhost:0" gives "http://localhost:0", which parses again to "http://localhost:8000". And "localhost:99999" gives "http://localhost:99999", which is refused when parsed again.
- The command-line interface, the HTTP client, file handling, the renderers in graph_checks/utils.py and the `commands` and `api` packages are not part of this model. The duplicate analyzers copied into commands/check_graph.py are the same code as duplicate_devices.py, duplicate_networks.py and duplicate_bbmds.py, and are modelled once.
