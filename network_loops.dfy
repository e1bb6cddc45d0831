/** graph_checks/network_loops.py: routing loops between BACnet networks, found by a depth-bounded
    search for simple cycles in the network adjacency that routers create. */
module NetworkLoops {
  import opened Seqs
  import opened Text
  import opened Bacnet
  import opened Dicts

  // ---------------------------------------------------------------------------------------------
  // The router links

  /** One (router, network it is on, network it serves) combination of the nested loops. */
  datatype Link = Link(router: Node, source: Node, target: Node)

  /** The links of router `r` from one source network: one per served network, in order. */
  function PairsOf(r: Node, targets: seq<Node>): Node -> seq<Link> {
    s => Map(targets, t => Link(r, s, t))
  }

  /** Every link of router `r`: its device-on-network values crossed with its serves-network
      values, sources outermost. */
  function LinksOf(g: Graph): Node -> seq<Link> {
    r => FlatMap(Objects(g, r, DeviceOnNetwork), PairsOf(r, Objects(g, r, ServesNetwork)))
  }

  /** Every link of every Router, in the order the loops meet them. */
  function Links(g: Graph): seq<Link> {
    FlatMap(OfType(g, RouterClass), LinksOf(g))
  }

  /** The links from source `s`: one per served network, all of router `r`. */
  lemma PairsOfSpec(r: Node, targets: seq<Node>, s: Node, l: Link)
    ensures l in PairsOf(r, targets)(s) <==> l.router == r && l.source == s && l.target in targets
  {
    MapMember(targets, t => Link(r, s, t), l);
  }

  /** The links of router `r`: its source networks crossed with its served networks. */
  lemma LinksOfSpec(g: Graph, r: Node, l: Link)
    ensures l in LinksOf(g)(r) <==>
      l.router == r && Triple(r, DeviceOnNetwork, l.source) in g && Triple(r, ServesNetwork, l.target) in g
  {
    var sources, targets := Objects(g, r, DeviceOnNetwork), Objects(g, r, ServesNetwork);
    FlatMapMember(sources, PairsOf(r, targets), l);
    forall s ensures l in PairsOf(r, targets)(s) <==> l.router == r && l.source == s && l.target in targets {
      PairsOfSpec(r, targets, s, l);
    }
  }

  /** A link is met iff its router is a Router that is on its source network and serves its target. */
  lemma LinksSpec(g: Graph, l: Link)
    ensures l in Links(g) <==>
      && Triple(l.router, RdfType, RouterClass) in g
      && Triple(l.router, DeviceOnNetwork, l.source) in g
      && Triple(l.router, ServesNetwork, l.target) in g
  {
    FlatMapMember(OfType(g, RouterClass), LinksOf(g), l);
    forall r ensures l in LinksOf(g)(r) <==>
      l.router == r && Triple(r, DeviceOnNetwork, l.source) in g && Triple(r, ServesNetwork, l.target) in g
    {
      LinksOfSpec(g, r, l);
    }
  }

  /** The key under which `router_connections` records the routers joining `a` to `b`. */
  function Key(a: Node, b: Node): string {
    a + "→" + b
  }

  /** The two dictionaries `_build_network_graph_with_routers` returns. */
  datatype Topology = Topology(networks: ListDict, routers: ListDict)

  /** One turn of the innermost loop: both directions of the edge and of the router record. */
  function AddLink(t: Topology, l: Link): Topology {
    var n := AddTo(AddTo(t.networks, l.source, l.target), l.target, l.source);
    var r := AddTo(AddTo(t.routers, Key(l.source, l.target), l.router), Key(l.target, l.source), l.router);
    Topology(n, r)
  }

  /** The dictionaries after the given links. */
  function Build(links: seq<Link>): Topology {
    if links == [] then Topology(Empty, Empty) else AddLink(Build(links[..|links| - 1]), links[|links| - 1])
  }

  /** `l` joins `a` and `b`, in either direction. */
  predicate Joins(l: Link, a: Node, b: Node) {
    (l.source == a && l.target == b) || (l.source == b && l.target == a)
  }

  /** The two networks of a link, source first. */
  function Ends(l: Link): seq<Node> {
    [l.source, l.target]
  }

  /** Both dictionaries stay valid. */
  lemma {:induction false} BuildValid(links: seq<Link>)
    ensures Valid(Build(links).networks) && Valid(Build(links).routers)
  {
    if links != [] {
      BuildValid(links[..|links| - 1]);
    }
  }

  /** `b` is listed under `a` iff some link joins them. */
  lemma {:induction false} BuildNetworks(links: seq<Link>, a: Node, b: Node)
    ensures b in Get(Build(links).networks, a) <==> exists l :: l in links && Joins(l, a, b)
  {
    if links != [] {
      var q, l := links[..|links| - 1], links[|links| - 1];
      BuildNetworks(q, a, b);
      var n0 := Build(q).networks;
      var n1 := AddTo(n0, l.source, l.target);
      AddToMember(n0, l.source, l.target, a, b);
      AddToMember(n1, l.target, l.source, a, b);
      assert b in Get(Build(links).networks, a) <==> b in Get(n0, a) || Joins(l, a, b);
      ExistsLast(links, a, b);
    }
  }

  /** Some link joins `a` and `b` iff one before the last does or the last does. */
  lemma ExistsLast(links: seq<Link>, a: Node, b: Node)
    requires links != []
    ensures (exists x :: x in links && Joins(x, a, b)) <==>
      (exists x :: x in links[..|links| - 1] && Joins(x, a, b)) || Joins(links[|links| - 1], a, b)
  {
    var q, l := links[..|links| - 1], links[|links| - 1];
    assert links == q + [l];
    if exists x :: x in links && Joins(x, a, b) {
      var x :| x in links && Joins(x, a, b);
      if x != l {
        assert x in q;
      }
    }
  }

  /** The networks are keyed in the order links first mention them, source before target. */
  lemma {:induction false} BuildKeys(links: seq<Link>)
    ensures Build(links).networks.keys == Dedup(FlatMap(links, Ends))
  {
    if links != [] {
      var q, l := links[..|links| - 1], links[|links| - 1];
      BuildKeys(q);
      BuildValid(q);
      var n0 := Build(q).networks;
      var n1 := AddTo(n0, l.source, l.target);
      AddToKeys(n0, l.source, l.target);
      AddToKeys(n1, l.target, l.source);
      var f := FlatMap(q, Ends);
      assert FlatMap(links, Ends) == f + Ends(l);
      PairSnoc(f, l.source, l.target);
      DedupSnoc(f, l.source);
      DedupSnoc(f + [l.source], l.target);
      DedupOfDistinct(n1.keys);
      assert n1.keys == Dedup(f + [l.source]);
    }
  }

  lemma PairSnoc(f: seq<Node>, a: Node, b: Node)
    ensures f + [a, b] == (f + [a]) + [b]
  {
  }

  /** `l` records router `r` under key `k`. */
  predicate Records(l: Link, k: string, r: Node) {
    l.router == r && (k == Key(l.source, l.target) || k == Key(l.target, l.source))
  }

  /** Router `r` is recorded under key `k` iff some link of `r` has `k` as one of its two keys. */
  lemma {:induction false} BuildRouters(links: seq<Link>, k: string, r: Node)
    ensures r in Get(Build(links).routers, k) <==> exists l :: l in links && Records(l, k, r)
  {
    if links != [] {
      var q, l := links[..|links| - 1], links[|links| - 1];
      BuildRouters(q, k, r);
      var r0 := Build(q).routers;
      var r1 := AddTo(r0, Key(l.source, l.target), l.router);
      AddToMember(r0, Key(l.source, l.target), l.router, k, r);
      AddToMember(r1, Key(l.target, l.source), l.router, k, r);
      assert r in Get(Build(links).routers, k) <==> r in Get(r0, k) || Records(l, k, r);
      RecordsLast(links, k, r);
    }
  }

  /** Some link records `r` under `k` iff one before the last does or the last does. */
  lemma RecordsLast(links: seq<Link>, k: string, r: Node)
    requires links != []
    ensures (exists x :: x in links && Records(x, k, r)) <==>
      (exists x :: x in links[..|links| - 1] && Records(x, k, r)) || Records(links[|links| - 1], k, r)
  {
    var q, l := links[..|links| - 1], links[|links| - 1];
    assert links == q + [l];
    if exists x :: x in links && Records(x, k, r) {
      var x :| x in links && Records(x, k, r);
      if x != l {
        assert x in q;
      }
    }
  }

  /** The adjacency is symmetric: `b` is listed under `a` iff `a` is listed under `b`. */
  lemma AdjacencySymmetric(links: seq<Link>, a: Node, b: Node)
    ensures b in Get(Build(links).networks, a) <==> a in Get(Build(links).networks, b)
  {
    BuildNetworks(links, a, b);
    BuildNetworks(links, b, a);
  }

  // ---------------------------------------------------------------------------------------------
  // The depth-bounded search

  /** The deepest recursion level the search still explores. */
  const MaxDepth: nat := 5

  /** `p` steps along the adjacency: each network is listed under the one before it. */
  predicate Walk(adj: ListDict, p: seq<Node>) {
    forall i | 0 <= i < |p| - 1 :: p[i + 1] in Get(adj, p[i])
  }

  /** `c` is a loop: distinct networks, each listed under the one before it, and the first listed
      under the last. */
  predicate IsLoop(adj: ListDict, c: seq<Node>) {
    |c| >= 1 && Distinct(c) && Walk(adj, c) && c[0] in Get(adj, c[|c| - 1])
  }

  /** `_dfs_cycle_detection(node, graph, visited, path, target, depth)`. Every recursive call gets
      copies of `visited` and `path`, so they are values here. */
  function Dfs(adj: ListDict, node: Node, visited: set<Node>, path: seq<Node>, target: Node, depth: nat): seq<Node>
    decreases MaxDepth + 1 - depth, 1, 0
  {
    if depth > MaxDepth then []
    else if node in visited then []
    else TryNeighbours(adj, Get(adj, node), visited + {node}, path + [node], target, depth)
  }

  /** The `for neighbor in graph.get(node, [])` loop of the search, from `ns[0]` on: a neighbour
      that closes a path of three or more networks ends it, an unvisited one is searched in turn. */
  function TryNeighbours(adj: ListDict, ns: seq<Node>, visited: set<Node>, path: seq<Node>, target: Node,
                         depth: nat): seq<Node>
    requires depth <= MaxDepth
    decreases MaxDepth + 1 - depth, 0, |ns|
  {
    if ns == [] then []
    else
      var neighbor := ns[0];
      if neighbor == target && |path| >= 3 then path
      else if neighbor !in visited then
        var cycle := Dfs(adj, neighbor, visited, path, target, depth + 1);
        if cycle != [] then cycle else TryNeighbours(adj, ns[1..], visited, path, target, depth)
      else TryNeighbours(adj, ns[1..], visited, path, target, depth)
  }

  /** The search started from `start` as `_find_cycles_union_find` starts it. */
  function SearchFrom(adj: ListDict, start: Node): seq<Node> {
    Dfs(adj, start, {}, [], start, 0)
  }

  /** What holds when the search reaches `node`: the path so far starts at the target, steps along
      the adjacency, repeats nothing, is `depth` long, and `node` is listed under its last network. */
  predicate Reached(adj: ListDict, node: Node, visited: set<Node>, path: seq<Node>, target: Node, depth: nat) {
    && |path| == depth && Distinct(path) && Elems(path) == visited && Walk(adj, path)
    && (path == [] ==> node == target)
    && (path != [] ==> path[0] == target && node in Get(adj, path[|path| - 1]))
  }

  /** What the search returns, when it returns something: a loop through the target of three to six
      networks that extends the path it was given. */
  predicate Found(adj: ListDict, r: seq<Node>, path: seq<Node>, target: Node) {
    r != [] ==> IsLoop(adj, r) && 3 <= |r| <= MaxDepth + 1 && r[0] == target && path <= r
  }

  lemma {:induction false} DfsFound(adj: ListDict, node: Node, visited: set<Node>, path: seq<Node>, target: Node,
                                    depth: nat)
    requires Reached(adj, node, visited, path, target, depth)
    ensures Found(adj, Dfs(adj, node, visited, path, target, depth), path, target)
    decreases MaxDepth + 1 - depth, 1, 0
  {
    if depth <= MaxDepth && node !in visited {
      var p := path + [node];
      DistinctSnoc(path, node);
      ElemsAppend(path, [node]);
      assert Elems([node]) == {node};
      assert forall i | 0 <= i < |path| :: p[i] == path[i];
      assert Walk(adj, p);
      TryFound(adj, Get(adj, node), visited + {node}, p, target, depth);
      assert path <= p;
    }
  }

  lemma {:induction false} TryFound(adj: ListDict, ns: seq<Node>, visited: set<Node>, path: seq<Node>, target: Node,
                                    depth: nat)
    requires depth <= MaxDepth && |path| == depth + 1
    requires Distinct(path) && Elems(path) == visited && Walk(adj, path) && path[0] == target
    requires forall n | n in ns :: n in Get(adj, path[|path| - 1])
    ensures Found(adj, TryNeighbours(adj, ns, visited, path, target, depth), path, target)
    decreases MaxDepth + 1 - depth, 0, |ns|
  {
    if ns != [] {
      var neighbor := ns[0];
      assert neighbor in ns;
      assert forall n | n in ns[1..] :: n in ns;
      if neighbor == target && |path| >= 3 {
      } else if neighbor !in visited {
        DfsFound(adj, neighbor, visited, path, target, depth + 1);
        TryFound(adj, ns[1..], visited, path, target, depth);
      } else {
        TryFound(adj, ns[1..], visited, path, target, depth);
      }
    }
  }

  /** From any start, the search finds nothing or a loop of three to six networks through it. */
  lemma SearchFromFound(adj: ListDict, start: Node)
    ensures var c := SearchFrom(adj, start);
      c != [] ==> IsLoop(adj, c) && 3 <= |c| <= MaxDepth + 1 && c[0] == start
  {
    DfsFound(adj, start, {}, [], start, 0);
  }

  /** The neighbour loop returns a loop as soon as one neighbour closes the path or leads to one. */
  lemma {:induction false} TryNonEmpty(adj: ListDict, ns: seq<Node>, visited: set<Node>, path: seq<Node>,
                                       target: Node, depth: nat, n: Node)
    requires depth <= MaxDepth && n in ns
    requires (n == target && |path| >= 3) || (n !in visited && Dfs(adj, n, visited, path, target, depth + 1) != [])
    ensures TryNeighbours(adj, ns, visited, path, target, depth) != []
    decreases |ns|
  {
    var neighbor := ns[0];
    if neighbor == target && |path| >= 3 {
    } else if neighbor !in visited && Dfs(adj, neighbor, visited, path, target, depth + 1) != [] {
    } else {
      assert n != neighbor && n in ns[1..];
      TryNonEmpty(adj, ns[1..], visited, path, target, depth, n);
    }
  }

  /** Walking a loop `c` of three to six networks from `c[0]`, the search that has reached `c[k]`
      along `c[..k]` finds a loop: the rest of `c` is one of the paths it tries. */
  lemma {:induction false} LoopSearched(adj: ListDict, c: seq<Node>, k: nat)
    requires IsLoop(adj, c) && 3 <= |c| <= MaxDepth + 1 && k < |c|
    ensures Dfs(adj, c[k], Elems(c[..k]), c[..k], c[0], k) != []
    decreases |c| - k
  {
    assert c[k] !in Elems(c[..k]);
    ElemsStep(c, k);
    assert c[..k] + [c[k]] == c[..k + 1];
    if k == |c| - 1 {
      assert c[..k + 1] == c;
      TryNonEmpty(adj, Get(adj, c[k]), Elems(c[..k + 1]), c[..k + 1], c[0], k, c[0]);
    } else {
      LoopSearched(adj, c, k + 1);
      assert c[k + 1] in Get(adj, c[k]);
      assert c[k + 1] !in Elems(c[..k + 1]);
      TryNonEmpty(adj, Get(adj, c[k]), Elems(c[..k + 1]), c[..k + 1], c[0], k, c[k + 1]);
    }
  }

  /** From every network of a loop of three to six networks, the search finds a loop. */
  lemma LoopFound(adj: ListDict, c: seq<Node>, x: Node)
    requires IsLoop(adj, c) && 3 <= |c| <= MaxDepth + 1 && x in c
    ensures SearchFrom(adj, x) != []
  {
    var k :| 0 <= k < |c| && c[k] == x;
    RotateLoop(adj, c, k);
    var r := c[k..] + c[..k];
    assert r[0] == x;
    LoopSearched(adj, r, 0);
    assert r[..0] == [];
    assert Elems(r[..0]) == {};
  }

  // ---------------------------------------------------------------------------------------------
  // Normal form of a loop

  /** `cycle[i:] + cycle[:i]` for the first position `i` of `min(cycle)`. */
  function Normalize(c: seq<Node>): seq<Node>
    requires c != []
  {
    var i := IndexOf(c, Min(c));
    c[i..] + c[..i]
  }

  /** Turning a loop to start elsewhere keeps it a loop over the same networks. */
  lemma RotateLoop(adj: ListDict, c: seq<Node>, k: nat)
    requires IsLoop(adj, c) && k < |c|
    ensures IsLoop(adj, c[k..] + c[..k]) && Elems(c[k..] + c[..k]) == Elems(c) && |c[k..] + c[..k]| == |c|
  {
    RotateWalk(adj, c, k);
    RotateElems(c, k);
  }

  /** The steps of a turned loop are steps of the loop. */
  lemma RotateWalk(adj: ListDict, c: seq<Node>, k: nat)
    requires IsLoop(adj, c) && k < |c|
    ensures Walk(adj, c[k..] + c[..k]) && c[k] in Get(adj, (c[k..] + c[..k])[|c| - 1])
  {
    var n := |c|;
    var r := c[k..] + c[..k];
    forall i | 0 <= i < n - 1 ensures r[i + 1] in Get(adj, r[i]) {
      if i + 1 < n - k {
        assert r[i] == c[k + i] && r[i + 1] == c[k + i + 1];
      } else if i + 1 == n - k {
        assert r[i] == c[n - 1] && r[i + 1] == c[0];
      } else {
        assert r[i] == c[i - (n - k)] && r[i + 1] == c[i - (n - k) + 1];
      }
    }
    if k > 0 {
      assert r[n - 1] == c[k - 1];
    } else {
      assert r == c;
    }
  }

  /** A turned sequence without repeats has the same elements and still no repeats. */
  lemma RotateElems(c: seq<Node>, k: nat)
    requires Distinct(c) && k <= |c|
    ensures Elems(c[k..] + c[..k]) == Elems(c) && Distinct(c[k..] + c[..k])
  {
    assert c == c[..k] + c[k..];
    ElemsAppend(c[..k], c[k..]);
    ElemsAppend(c[k..], c[..k]);
    forall x | x in c[k..] ensures x !in c[..k] {
      var i :| k <= i < |c| && c[i] == x;
    }
    DistinctAppend(c[k..], c[..k]);
  }

  /** A normalised loop is a loop over the same networks that starts at its least network. */
  lemma NormalizeLoop(adj: ListDict, c: seq<Node>)
    requires IsLoop(adj, c)
    ensures var r := Normalize(c);
      && IsLoop(adj, r) && Elems(r) == Elems(c) && |r| == |c|
      && r[0] == Min(c) && forall x | x in r :: !Less(x, r[0])
  {
    var i := IndexOf(c, Min(c));
    RotateLoop(adj, c, i);
  }

  // ---------------------------------------------------------------------------------------------
  // Collecting the loops

  /** Every network on one of `cycles`. */
  function OnLoops(cycles: seq<seq<Node>>): set<Node> {
    set c, x | c in cycles && x in c :: x
  }

  /** `cycles` are reported loops of the adjacency: each of three to six networks, starting at its
      least network, no two over the same networks. */
  predicate Reported(adj: ListDict, cycles: seq<seq<Node>>) {
    && (forall c | c in cycles :: IsLoop(adj, c) && 3 <= |c| <= MaxDepth + 1 && forall x | x in c :: !Less(x, c[0]))
    && (forall i, j | 0 <= i < j < |cycles| :: Elems(cycles[i]) != Elems(cycles[j]))
  }

  /** Appending a loop over a new set of networks keeps the loops reported. */
  lemma ReportedSnoc(adj: ListDict, cycles: seq<seq<Node>>, c: seq<Node>)
    requires Reported(adj, cycles)
    requires IsLoop(adj, c) && 3 <= |c| <= MaxDepth + 1 && forall x | x in c :: !Less(x, c[0])
    requires forall e | e in cycles :: Elems(c) != Elems(e)
    ensures Reported(adj, cycles + [c])
    ensures OnLoops(cycles + [c]) == OnLoops(cycles) + Elems(c)
  {
    var cs := cycles + [c];
    forall i, j | 0 <= i < j < |cs| ensures Elems(cs[i]) != Elems(cs[j]) {
      if j == |cycles| {
        assert cs[i] in cycles;
      } else {
        assert cs[i] == cycles[i] && cs[j] == cycles[j];
      }
    }
  }

  /** What `_find_cycles_union_find` keeps true after the first `i` starts: the loops found are
      reported, `visited_global` holds their networks and those starts, and every one of those
      starts from which the search finds a loop lies on a found loop. */
  predicate Progress(adj: ListDict, allNodes: seq<Node>, i: nat, cycles: seq<seq<Node>>, visitedGlobal: set<Node>) {
    && i <= |allNodes|
    && Reported(adj, cycles)
    && visitedGlobal == OnLoops(cycles) + Elems(allNodes[..i])
    && (forall k | 0 <= k < i && SearchFrom(adj, allNodes[k]) != [] :: allNodes[k] in OnLoops(cycles))
    && (OnLoops(cycles) <= Elems(adj.keys) || !Valid(adj))
    && allNodes == adj.keys
  }

  /** A turn keeps the progress when it only adds loops and leaves the current start on one of
      them whenever the search from it finds a loop. */
  lemma ProgressStep(adj: ListDict, allNodes: seq<Node>, i: nat, cycles: seq<seq<Node>>, visitedGlobal: set<Node>,
                     cycles': seq<seq<Node>>)
    requires i < |allNodes| && Progress(adj, allNodes, i, cycles, visitedGlobal)
    requires Reported(adj, cycles') && OnLoops(cycles) <= OnLoops(cycles')
    requires OnLoops(cycles') <= Elems(adj.keys) || !Valid(adj)
    requires SearchFrom(adj, allNodes[i]) != [] ==> allNodes[i] in OnLoops(cycles')
    ensures Progress(adj, allNodes, i + 1, cycles', OnLoops(cycles') + Elems(allNodes[..i + 1]))
  {
    assert allNodes[..i + 1] == allNodes[..i] + [allNodes[i]];
  }

  /** A network on one of the loops. */
  lemma OnLoopsMember(cycles: seq<seq<Node>>, e: seq<Node>, x: Node)
    requires e in cycles && x in e
    ensures x in OnLoops(cycles)
  {
  }

  /** No loop found so far has the networks of a loop through a network on none of them. */
  lemma FreshLoop(cycles: seq<seq<Node>>, c: seq<Node>, start: Node)
    requires start in Elems(c) && start !in OnLoops(cycles)
    ensures forall e | e in cycles :: Elems(c) != Elems(e)
  {
    forall e | e in cycles ensures Elems(c) != Elems(e) {
      if start in e {
        OnLoopsMember(cycles, e, start);
      } else {
        assert start !in Elems(e);
      }
    }
  }

  /** Adding a loop over new networks keeps the loops reported and inside the keys. */
  lemma AddLoop(adj: ListDict, cycles: seq<seq<Node>>, c: seq<Node>)
    requires Reported(adj, cycles) && (OnLoops(cycles) <= Elems(adj.keys) || !Valid(adj))
    requires IsLoop(adj, c) && 3 <= |c| <= MaxDepth + 1 && forall x | x in c :: !Less(x, c[0])
    requires forall e | e in cycles :: Elems(c) != Elems(e)
    ensures Reported(adj, cycles + [c]) && OnLoops(cycles) <= OnLoops(cycles + [c])
    ensures OnLoops(cycles + [c]) <= Elems(adj.keys) || !Valid(adj)
    ensures OnLoops(cycles + [c]) == OnLoops(cycles) + Elems(c)
  {
    ReportedSnoc(adj, cycles, c);
    if Valid(adj) {
      LoopInKeys(adj, c);
    }
  }

  /** One turn of the loop over the starts: a start already seen is skipped. */
  method Consider(adj: ListDict, allNodes: seq<Node>, i: nat, cycles: seq<seq<Node>>, visitedGlobal: set<Node>)
    returns (cycles': seq<seq<Node>>, visitedGlobal': set<Node>)
    requires i < |allNodes| && Progress(adj, allNodes, i, cycles, visitedGlobal)
    ensures Progress(adj, allNodes, i + 1, cycles', visitedGlobal')
  {
    if allNodes[i] in visitedGlobal {
      SkipStart(adj, allNodes, i, cycles, visitedGlobal);
      cycles', visitedGlobal' := cycles, visitedGlobal;
    } else {
      cycles', visitedGlobal' := SearchStart(adj, allNodes, i, cycles, visitedGlobal);
    }
  }

  /** Skipping a start already seen keeps the progress. */
  lemma SkipStart(adj: ListDict, allNodes: seq<Node>, i: nat, cycles: seq<seq<Node>>, visitedGlobal: set<Node>)
    requires i < |allNodes| && Progress(adj, allNodes, i, cycles, visitedGlobal) && allNodes[i] in visitedGlobal
    ensures Progress(adj, allNodes, i + 1, cycles, visitedGlobal)
  {
    var start := allNodes[i];
    ElemsAppend(allNodes[..i], [start]);
    assert allNodes[..i + 1] == allNodes[..i] + [start];
    if start !in OnLoops(cycles) {
      var k :| 0 <= k < i && allNodes[k] == start;
    }
    ProgressStep(adj, allNodes, i, cycles, visitedGlobal, cycles);
  }

  /** The search from a start not seen yet: its loop's normal form is kept, with its networks
      marked as seen, unless a loop over the same networks was found already; then the start is
      marked as seen. */
  method SearchStart(adj: ListDict, allNodes: seq<Node>, i: nat, cycles: seq<seq<Node>>, visitedGlobal: set<Node>)
    returns (cycles': seq<seq<Node>>, visitedGlobal': set<Node>)
    requires i < |allNodes| && Progress(adj, allNodes, i, cycles, visitedGlobal) && allNodes[i] !in visitedGlobal
    ensures Progress(adj, allNodes, i + 1, cycles', visitedGlobal')
  {
    var start := allNodes[i];
    cycles', visitedGlobal' := cycles, visitedGlobal;
    ghost var added: seq<Node> := [];
    var cycle := Dfs(adj, start, {}, [], start, 0);
    SearchFromFound(adj, start);
    if cycle != [] && |cycle| >= 3 {
      var normalized := Normalize(cycle);
      NormalizeLoop(adj, cycle);
      assert start in Elems(normalized);
      // A loop over the same networks would hold `start`, which would then have been skipped as
      // seen: the member-set test below never finds a match.
      FreshLoop(cycles, normalized, start);
      if !(exists existing | existing in cycles :: Elems(normalized) == Elems(existing)) {
        AddLoop(adj, cycles, normalized);
        cycles' := cycles + [normalized];
        visitedGlobal' := visitedGlobal + Elems(normalized);
        added := normalized;
      }
    }
    visitedGlobal' := visitedGlobal' + {start};
    SearchStep(adj, allNodes, i, cycles, visitedGlobal, cycles', added);
  }

  /** The progress after a search: the loops only grow, and the start, with the networks of a
      kept loop, is marked as seen. */
  lemma SearchStep(adj: ListDict, allNodes: seq<Node>, i: nat, cycles: seq<seq<Node>>, visitedGlobal: set<Node>,
                   cycles': seq<seq<Node>>, added: seq<Node>)
    requires i < |allNodes| && Progress(adj, allNodes, i, cycles, visitedGlobal)
    requires Reported(adj, cycles') && OnLoops(cycles') == OnLoops(cycles) + Elems(added)
    requires OnLoops(cycles') <= Elems(adj.keys) || !Valid(adj)
    requires SearchFrom(adj, allNodes[i]) != [] ==> allNodes[i] in OnLoops(cycles')
    ensures Progress(adj, allNodes, i + 1, cycles', visitedGlobal + Elems(added) + {allNodes[i]})
  {
    ElemsAppend(allNodes[..i], [allNodes[i]]);
    assert allNodes[..i + 1] == allNodes[..i] + [allNodes[i]];
    ProgressStep(adj, allNodes, i, cycles, visitedGlobal, cycles');
  }

  /** `_find_cycles_union_find`: from each network not yet on a found loop, in key order, search for
      a loop; keep its normal form unless a loop over the same networks was found already. Every
      network from which the search finds a loop ends up on a reported loop. */
  method FindCycles(adj: ListDict) returns (cycles: seq<seq<Node>>)
    ensures |adj.keys| < 3 ==> cycles == []
    ensures Reported(adj, cycles)
    ensures |adj.keys| >= 3 ==> forall n | n in adj.keys && SearchFrom(adj, n) != [] :: n in OnLoops(cycles)
    ensures OnLoops(cycles) <= Elems(adj.keys) || !Valid(adj)
    ensures Valid(adj) ==> forall c | IsLoop(adj, c) && 3 <= |c| <= MaxDepth + 1 :: Elems(c) <= OnLoops(cycles)
  {
    cycles := [];
    var allNodes := adj.keys;
    if |allNodes| < 3 {
      if Valid(adj) {
        LoopsCovered(adj, OnLoops(cycles));
      }
      return;
    }
    var visitedGlobal: set<Node> := {};
    assert OnLoops(cycles) == {};
    for i := 0 to |allNodes|
      invariant Progress(adj, allNodes, i, cycles, visitedGlobal)
    {
      cycles, visitedGlobal := Consider(adj, allNodes, i, cycles, visitedGlobal);
    }
    forall n | n in adj.keys && SearchFrom(adj, n) != [] ensures n in OnLoops(cycles) {
      var k :| 0 <= k < |allNodes| && allNodes[k] == n;
    }
    if Valid(adj) {
      LoopsCovered(adj, OnLoops(cycles));
    }
  }

  /** A loop of three or more networks needs three keys. */
  lemma LoopNeedsKeys(adj: ListDict, c: seq<Node>)
    requires Valid(adj) && IsLoop(adj, c) && |c| >= 3
    ensures Elems(c) <= Elems(adj.keys) && |adj.keys| >= |c|
  {
    LoopInKeys(adj, c);
    DistinctElems(c);
    DistinctElems(adj.keys);
    assert Elems(adj.keys) == Elems(c) + (Elems(adj.keys) - Elems(c));
  }

  /** When every key from which the search finds a loop is covered, so is every network of every
      loop of three to six networks. */
  lemma LoopsCovered(adj: ListDict, covered: set<Node>)
    requires Valid(adj)
    requires |adj.keys| >= 3 ==> forall n | n in adj.keys && SearchFrom(adj, n) != [] :: n in covered
    ensures forall c | IsLoop(adj, c) && 3 <= |c| <= MaxDepth + 1 :: Elems(c) <= covered
  {
    forall c | IsLoop(adj, c) && 3 <= |c| <= MaxDepth + 1 ensures Elems(c) <= covered {
      LoopNeedsKeys(adj, c);
      forall x | x in c ensures x in covered {
        LoopFound(adj, c, x);
      }
    }
  }

  /** Over three networks, a loop of three or more passes through all three. */
  lemma TriangleAll(adj: ListDict, c: seq<Node>)
    requires Valid(adj) && |adj.keys| == 3 && IsLoop(adj, c) && |c| >= 3
    ensures |c| == 3 && Elems(c) == Elems(adj.keys)
  {
    LoopNeedsKeys(adj, c);
    DistinctElems(c);
    DistinctElems(adj.keys);
    var rest := Elems(adj.keys) - Elems(c);
    assert Elems(adj.keys) == Elems(c) + rest;
    assert Elems(c) !! rest;
    assert |rest| == 0;
  }

  /** Over three networks, the reported loops are at most one, of all three. */
  lemma TriangleOnce(adj: ListDict, paths: seq<seq<Node>>)
    requires Valid(adj) && |adj.keys| == 3 && Reported(adj, paths)
    ensures |paths| <= 1 && forall c | c in paths :: |c| == 3
  {
    forall c | c in paths ensures |c| == 3 {
      TriangleAll(adj, c);
    }
    if |paths| > 1 {
      assert paths[0] in paths && paths[1] in paths;
      TriangleAll(adj, paths[0]);
      TriangleAll(adj, paths[1]);
      assert false;
    }
  }

  /** Every network of a loop is a key of the adjacency. */
  lemma LoopInKeys(adj: ListDict, c: seq<Node>)
    requires Valid(adj) && IsLoop(adj, c)
    ensures Elems(c) <= Elems(adj.keys)
  {
    forall x | x in c ensures x in adj.lists {
      var i :| 0 <= i < |c| && c[i] == x;
      if i < |c| - 1 {
        assert c[i + 1] in Get(adj, x);
      } else {
        assert c[0] in Get(adj, x);
      }
    }
  }

  /** One step of a loop, the last network stepping back to the first. */
  lemma LoopStep(adj: ListDict, c: seq<Node>, k: nat)
    requires IsLoop(adj, c) && k < |c|
    ensures (k + 1) % |c| == if k + 1 == |c| then 0 else k + 1
    ensures c[(k + 1) % |c|] in Get(adj, c[k])
  {
    if k < |c| - 1 {
      assert (k + 1) % |c| == k + 1;
    } else {
      assert (k + 1) % |c| == 0;
    }
  }

  /** `r` is a Router on one of `a` and `b` that serves the other. */
  predicate RoutesBetween(g: Graph, r: Node, a: Node, b: Node) {
    && Triple(r, RdfType, RouterClass) in g
    && ((Triple(r, DeviceOnNetwork, a) in g && Triple(r, ServesNetwork, b) in g)
     || (Triple(r, DeviceOnNetwork, b) in g && Triple(r, ServesNetwork, a) in g))
  }

  /** Each step of a loop of the router topology, the wrap-around step included, is made by a
      Router on one of its two networks that serves the other. */
  lemma LoopRouted(g: Graph, c: seq<Node>, k: nat)
    requires IsLoop(Build(Links(g)).networks, c) && k < |c|
    ensures exists r :: Triple(r, RdfType, RouterClass) in g && RoutesBetween(g, r, c[k], c[(k + 1) % |c|])
  {
    var a, b := c[k], c[(k + 1) % |c|];
    LoopStep(Build(Links(g)).networks, c, k);
    BuildNetworks(Links(g), a, b);
    var l :| l in Links(g) && Joins(l, a, b);
    LinkRoutes(g, l, a, b);
  }

  /** The router of a link joining `a` and `b` routes between them. */
  lemma LinkRoutes(g: Graph, l: Link, a: Node, b: Node)
    requires l in Links(g) && Joins(l, a, b)
    ensures RoutesBetween(g, l.router, a, b)
  {
    LinksSpec(g, l);
  }

  /** A chain a - b - c has no loop of three or more networks: a loop through an end of the chain
      would enter and leave it through its one neighbour. */
  lemma ChainHasNoLoop(adj: ListDict, a: Node, b: Node, c: Node, loop: seq<Node>)
    requires a != b && b != c && a != c
    requires adj.lists.Keys == {a, b, c}
    requires Get(adj, a) == [b] && Get(adj, b) == [a, c] && Get(adj, c) == [b]
    requires IsLoop(adj, loop)
    ensures |loop| < 3
  {
    var n := |loop|;
    if n >= 3 {
      forall k | 0 <= k < n ensures loop[k] == b {
        var prev := if k == 0 then n - 1 else k - 1;
        LoopStep(adj, loop, k);
        LoopStep(adj, loop, prev);
        var next := if k + 1 == n then 0 else k + 1;
        assert loop[next] in Get(adj, loop[k]) && loop[k] in Get(adj, loop[prev]);
        if loop[k] != b {
          assert false;
        }
      }
      assert false;
    }
  }

  // ---------------------------------------------------------------------------------------------
  // Building the dictionaries

  /** One more link after a run of links. */
  lemma BuildStep(done: seq<Link>, more: seq<Link>, l: Link)
    ensures Build(done + (more + [l])) == AddLink(Build(done + more), l)
  {
    assert done + (more + [l]) == (done + more) + [l];
    assert (done + more + [l])[..|done + more|] == done + more;
  }

  /** One more flat-mapped element after a run of links. */
  lemma FlatMapDone<A>(done: seq<Link>, s: seq<A>, j: nat, f: A -> seq<Link>)
    requires j < |s|
    ensures done + FlatMap(s[..j + 1], f) == (done + FlatMap(s[..j], f)) + f(s[j])
  {
    FlatMapStep(s, j, f);
  }

  /** The innermost loop, for one network `source` that `router` is on: one link per network it
      serves. */
  method AddSource(topo: Topology, ghost done: seq<Link>, router: Node, source: Node, targets: seq<Node>)
    returns (topo': Topology)
    requires topo == Build(done)
    ensures topo' == Build(done + PairsOf(router, targets)(source))
  {
    topo' := topo;
    assert done + Map(targets[..0], t => Link(router, source, t)) == done;
    for k := 0 to |targets|
      invariant topo' == Build(done + Map(targets[..k], t => Link(router, source, t)))
    {
      var target := targets[k];
      MapStep(targets, k, t => Link(router, source, t));
      BuildStep(done, Map(targets[..k], t => Link(router, source, t)), Link(router, source, target));
      topo' := AddLink(topo', Link(router, source, target));
    }
    assert targets[..|targets|] == targets;
  }

  /** The two inner loops, for one Router. */
  method AddRouter(g: Graph, topo: Topology, ghost done: seq<Link>, router: Node) returns (topo': Topology)
    requires topo == Build(done)
    ensures topo' == Build(done + LinksOf(g)(router))
  {
    var sourceNetworks := Objects(g, router, DeviceOnNetwork);
    var targetNetworks := Objects(g, router, ServesNetwork);
    ghost var pairs := PairsOf(router, targetNetworks);
    ghost var sofar := done;
    topo' := topo;
    assert done + FlatMap(sourceNetworks[..0], pairs) == done;
    for j := 0 to |sourceNetworks|
      invariant sofar == done + FlatMap(sourceNetworks[..j], pairs)
      invariant topo' == Build(sofar)
    {
      FlatMapDone(done, sourceNetworks, j, pairs);
      topo' := AddSource(topo', sofar, router, sourceNetworks[j], targetNetworks);
      sofar := sofar + pairs(sourceNetworks[j]);
    }
    assert sourceNetworks[..|sourceNetworks|] == sourceNetworks;
  }

  /** `_build_network_graph_with_routers`: the adjacency and router dictionaries after every link
      of every Router. */
  method BuildNetworkGraphWithRouters(g: Graph) returns (topo: Topology)
    ensures topo == Build(Links(g))
  {
    var routers := OfType(g, RouterClass);
    topo := Topology(Empty, Empty);
    for i := 0 to |routers|
      invariant topo == Build(FlatMap(routers[..i], LinksOf(g)))
    {
      FlatMapStep(routers, i, LinksOf(g));
      topo := AddRouter(g, topo, FlatMap(routers[..i], LinksOf(g)), routers[i]);
    }
    assert routers[..|routers|] == routers;
  }

  // ---------------------------------------------------------------------------------------------
  // The routers of a loop

  /** `_get_router_name` and `_get_network_name`: the text after the last '/', or the whole URI. */
  function Name(uri: Node): string {
    if '/' in uri then AfterLast(uri, '/') else uri
  }

  /** A name is the last '/'-separated piece of its URI: a suffix of it without '/'. */
  lemma NameSpec(uri: Node)
    ensures Name(uri) == Split(uri, '/')[|Split(uri, '/')| - 1]
    ensures '/' !in Name(uri) && EndsWith(uri, Name(uri))
  {
    AfterLastSplit(uri, '/');
  }

  /** One entry of `routers_causing_loop`. */
  datatype RouterInfo = RouterInfo(routerUri: Node, routerName: string, connectsFrom: string, connectsTo: string,
                                   connectionType: string)

  /** The `i`-th step of a loop: from its `i`-th network to the next, the last network stepping to
      the first. */
  function Step(loop: seq<Node>, i: nat): (Node, Node)
    requires i < |loop|
  {
    (loop[i], loop[(i + 1) % |loop|])
  }

  /** The steps of a loop, in order. */
  function Edges(loop: seq<Node>): seq<(Node, Node)> {
    seq(|loop|, i requires 0 <= i < |loop| => Step(loop, i))
  }

  /** The entry for `router` on step `e`. */
  function Entry(router: Node, e: (Node, Node)): RouterInfo {
    RouterInfo(router, Name(router), Name(e.0), Name(e.1), "bidirectional routing")
  }

  /** The entries for the routers recorded under a step's key, in recorded order. */
  function EdgeEntries(conns: ListDict): ((Node, Node)) -> seq<RouterInfo> {
    (e: (Node, Node)) => Map(Get(conns, Key(e.0, e.1)), r => Entry(r, e))
  }

  /** Every entry the loops over the steps and their routers meet, repeats included. */
  function Candidates(loop: seq<Node>, conns: ListDict): seq<RouterInfo> {
    FlatMap(Edges(loop), EdgeEntries(conns))
  }

  /** `uri` is the router of some entry of `s`. */
  predicate HasRouter(s: seq<RouterInfo>, uri: Node) {
    exists e | e in s :: e.routerUri == uri
  }

  /** The entries in order, each router kept at its first entry only. */
  function KeepFirst(s: seq<RouterInfo>): seq<RouterInfo> {
    if s == [] then []
    else
      var r := KeepFirst(s[..|s| - 1]);
      if HasRouter(r, s[|s| - 1].routerUri) then r else r + [s[|s| - 1]]
  }

  /** What `_find_routers_in_loop` returns. */
  function RoutersInLoop(loop: seq<Node>, conns: ListDict): seq<RouterInfo> {
    KeepFirst(Candidates(loop, conns))
  }

  /** No router has two entries. */
  predicate UniqueRouters(r: seq<RouterInfo>) {
    forall i, j | 0 <= i < j < |r| :: r[i].routerUri != r[j].routerUri
  }

  /** Keeping first entries names every router once, keeps only entries of `s`, and keeps a router
      iff `s` has an entry for it. */
  lemma {:induction false} KeepFirstSpec(s: seq<RouterInfo>)
    ensures UniqueRouters(KeepFirst(s))
    ensures forall x | x in KeepFirst(s) :: x in s
    ensures forall uri :: HasRouter(KeepFirst(s), uri) <==> HasRouter(s, uri)
  {
    if s != [] {
      var p, x := s[..|s| - 1], s[|s| - 1];
      KeepFirstSpec(p);
      assert s == p + [x];
      var q := KeepFirst(p);
      var r := KeepFirst(s);
      if !HasRouter(q, x.routerUri) {
        assert r == q + [x];
        forall i, j | 0 <= i < j < |r| ensures r[i].routerUri != r[j].routerUri {
          assert r[i] == q[i] && r[i] in q;
          if j == |r| - 1 {
            assert r[j] == x;
          } else {
            assert r[j] == q[j];
          }
        }
      }
      forall uri ensures HasRouter(r, uri) <==> HasRouter(s, uri) {
        if HasRouter(s, uri) {
          var e :| e in s && e.routerUri == uri;
          if e != x {
            assert e in p;
            assert HasRouter(p, uri);
            var f :| f in q && f.routerUri == uri;
            assert f in r;
          } else if HasRouter(q, uri) {
            var f :| f in q && f.routerUri == uri;
            assert f in r;
          } else {
            assert x in r;
          }
        }
        if HasRouter(r, uri) {
          var f :| f in r && f.routerUri == uri;
          assert f in s;
        }
      }
    }
  }

  /** One more entry at the end. */
  lemma KeepFirstSnoc(s: seq<RouterInfo>, x: RouterInfo)
    ensures KeepFirst(s + [x]) == if HasRouter(KeepFirst(s), x.routerUri) then KeepFirst(s) else KeepFirst(s) + [x]
  {
    assert (s + [x])[..|s|] == s;
  }

  /** An entry is a candidate iff it is the entry of a router recorded under some step's key. */
  lemma CandidateMember(loop: seq<Node>, conns: ListDict, x: RouterInfo)
    ensures x in Candidates(loop, conns) <==> exists k | 0 <= k < |loop| ::
      x.routerUri in Get(conns, Key(Step(loop, k).0, Step(loop, k).1)) && x == Entry(x.routerUri, Step(loop, k))
  {
    var es := Edges(loop);
    FlatMapMember(es, EdgeEntries(conns), x);
    forall e ensures x in EdgeEntries(conns)(e) <==> x.routerUri in Get(conns, Key(e.0, e.1)) && x == Entry(x.routerUri, e) {
      MapMember(Get(conns, Key(e.0, e.1)), r => Entry(r, e), x);
    }
    if x in Candidates(loop, conns) {
      var e :| e in es && x in EdgeEntries(conns)(e);
      var k :| 0 <= k < |es| && es[k] == e;
      assert e == Step(loop, k);
    }
    if exists k | 0 <= k < |loop| ::
        x.routerUri in Get(conns, Key(Step(loop, k).0, Step(loop, k).1)) && x == Entry(x.routerUri, Step(loop, k)) {
      var k :| 0 <= k < |loop| &&
        x.routerUri in Get(conns, Key(Step(loop, k).0, Step(loop, k).1)) && x == Entry(x.routerUri, Step(loop, k));
      assert es[k] in es;
    }
  }

  /** The entries of a loop's routers: every router once; a router is listed iff it is recorded
      under the key of some step of the loop, the wrap-around step included; each entry names such
      a step and its router. */
  lemma RoutersInLoopSpec(loop: seq<Node>, conns: ListDict)
    ensures UniqueRouters(RoutersInLoop(loop, conns))
    ensures forall uri :: HasRouter(RoutersInLoop(loop, conns), uri) <==>
      exists k | 0 <= k < |loop| :: uri in Get(conns, Key(Step(loop, k).0, Step(loop, k).1))
    ensures forall x | x in RoutersInLoop(loop, conns) :: exists k | 0 <= k < |loop| ::
      x.routerUri in Get(conns, Key(Step(loop, k).0, Step(loop, k).1)) && x == Entry(x.routerUri, Step(loop, k))
  {
    var cs := Candidates(loop, conns);
    KeepFirstSpec(cs);
    forall x | x in cs ensures exists k | 0 <= k < |loop| ::
        x.routerUri in Get(conns, Key(Step(loop, k).0, Step(loop, k).1)) && x == Entry(x.routerUri, Step(loop, k))
    {
      CandidateMember(loop, conns, x);
    }
    forall uri ensures HasRouter(cs, uri) <==>
        exists k | 0 <= k < |loop| :: uri in Get(conns, Key(Step(loop, k).0, Step(loop, k).1))
    {
      if exists k | 0 <= k < |loop| :: uri in Get(conns, Key(Step(loop, k).0, Step(loop, k).1)) {
        var k :| 0 <= k < |loop| && uri in Get(conns, Key(Step(loop, k).0, Step(loop, k).1));
        CandidateMember(loop, conns, Entry(uri, Step(loop, k)));
      }
      if HasRouter(cs, uri) {
        var x :| x in cs && x.routerUri == uri;
        CandidateMember(loop, conns, x);
      }
    }
  }

  /** The routers of one step, appended unless already listed. */
  method AddEdgeRouters(conns: ListDict, ghost before: seq<RouterInfo>, loopRouters: seq<RouterInfo>, e: (Node, Node))
    returns (loopRouters': seq<RouterInfo>)
    requires loopRouters == KeepFirst(before)
    ensures loopRouters' == KeepFirst(before + EdgeEntries(conns)(e))
  {
    var routers := Get(conns, Key(e.0, e.1));
    loopRouters' := loopRouters;
    assert before + Map(routers[..0], r => Entry(r, e)) == before;
    for j := 0 to |routers|
      invariant loopRouters' == KeepFirst(before + Map(routers[..j], r => Entry(r, e)))
    {
      var router := routers[j];
      var routerInfo := Entry(router, e);
      EntryStep(before, routers, j, e);
      KeepFirstSnoc(before + Map(routers[..j], r => Entry(r, e)), routerInfo);
      if !(exists existing | existing in loopRouters' :: existing.routerUri == router) {
        loopRouters' := loopRouters' + [routerInfo];
      }
    }
    assert routers[..|routers|] == routers;
  }

  /** One more router of a step after the entries met so far. */
  lemma EntryStep(before: seq<RouterInfo>, routers: seq<Node>, j: nat, e: (Node, Node))
    requires j < |routers|
    ensures before + Map(routers[..j + 1], r => Entry(r, e)) == (before + Map(routers[..j], r => Entry(r, e))) + [Entry(routers[j], e)]
  {
    MapStep(routers, j, r => Entry(r, e));
  }

  /** `_find_routers_in_loop`. */
  method FindRoutersInLoop(networksInLoop: seq<Node>, routerConnections: ListDict) returns (loopRouters: seq<RouterInfo>)
    ensures loopRouters == RoutersInLoop(networksInLoop, routerConnections)
  {
    var es := Edges(networksInLoop);
    loopRouters := [];
    for i := 0 to |networksInLoop|
      invariant loopRouters == KeepFirst(FlatMap(es[..i], EdgeEntries(routerConnections)))
    {
      var currentNet := networksInLoop[i];
      var nextNet := networksInLoop[(i + 1) % |networksInLoop|];
      assert es[i] == Step(networksInLoop, i) == (currentNet, nextNet);
      FlatMapStep(es, i, EdgeEntries(routerConnections));
      loopRouters := AddEdgeRouters(routerConnections, FlatMap(es[..i], EdgeEntries(routerConnections)), loopRouters,
                                    (currentNet, nextNet));
    }
    assert es[..|es|] == es;
  }

  // ---------------------------------------------------------------------------------------------
  // The analyzer

  /** A finding; the description, risk and recommendation texts are left out. */
  datatype Issue = Issue(issueType: string, severity: Severity, loopSize: nat, loopPath: seq<Node>,
                         networksInLoop: seq<Node>, routersCausingLoop: seq<RouterInfo>)

  /** The finding for a loop of three or more networks. */
  function LoopIssue(routers: ListDict): seq<Node> -> Issue {
    c => Issue("network-loops", Critical, |c|, c, c, RoutersInLoop(c, routers))
  }

  /** The loop path of a finding. */
  function PathOf(issue: Issue): seq<Node> {
    issue.loopPath
  }

  /** The networks on the loops after one more loop. */
  lemma OnLoopsStep(cycles: seq<seq<Node>>, k: nat)
    requires k < |cycles|
    ensures OnLoops(cycles[..k + 1]) == OnLoops(cycles[..k]) + Elems(cycles[k])
  {
    assert cycles[..k + 1] == cycles[..k] + [cycles[k]];
  }

  /** The findings, one per loop, give back the loops. */
  lemma IssuesOfLoops(cycles: seq<seq<Node>>, routers: ListDict)
    ensures Map(Map(cycles, LoopIssue(routers)), PathOf) == cycles
    ensures forall issue | issue in Map(cycles, LoopIssue(routers)) :: issue == LoopIssue(routers)(issue.loopPath)
  {
    MapRoundTrip(cycles, LoopIssue(routers), PathOf);
    forall issue | issue in Map(cycles, LoopIssue(routers)) ensures issue == LoopIssue(routers)(issue.loopPath) {
      MapMember(cycles, LoopIssue(routers), issue);
    }
  }

  /** The mutual-routing case of exactly two networks `net1` and `net2`, in key order. */
  method ReportPair(networkGraph: ListDict, routerConnections: ListDict, net1: Node, net2: Node)
    returns (issues: seq<Issue>, affectedNodes: set<Node>)
    ensures if net2 in Get(networkGraph, net1) && net1 in Get(networkGraph, net2) then
        && issues == [Issue("network-loops", Critical, 2, [net1, net2, net1], [net1, net2],
                            RoutersInLoop([net1, net2], routerConnections))]
        && affectedNodes == {net1, net2}
      else issues == [] && affectedNodes == {}
  {
    issues, affectedNodes := [], {};
    if net2 in Get(networkGraph, net1) && net1 in Get(networkGraph, net2) {
      var loopRouters := FindRoutersInLoop([net1, net2], routerConnections);
      issues := [Issue("network-loops", Critical, 2, [net1, net2, net1], [net1, net2], loopRouters)];
      affectedNodes := {net1, net2};
    }
  }

  /** The case of three or more networks: one finding per loop the search keeps. */
  method ReportLoops(networkGraph: ListDict, routerConnections: ListDict) returns (issues: seq<Issue>, affectedNodes: set<Node>)
    requires |networkGraph.keys| >= 3
    ensures Reported(networkGraph, Map(issues, PathOf))
    ensures forall issue | issue in issues :: issue == LoopIssue(routerConnections)(issue.loopPath)
    ensures affectedNodes == OnLoops(Map(issues, PathOf))
    ensures affectedNodes <= Elems(networkGraph.keys) || !Valid(networkGraph)
    ensures forall n | n in networkGraph.keys && SearchFrom(networkGraph, n) != [] :: n in affectedNodes
    ensures Valid(networkGraph) ==>
      forall c | IsLoop(networkGraph, c) && 3 <= |c| <= MaxDepth + 1 :: Elems(c) <= affectedNodes && issues != []
    ensures Valid(networkGraph) && |networkGraph.keys| == 3 && (exists c :: IsLoop(networkGraph, c) && |c| == 3) ==>
      |issues| == 1 && issues[0].loopSize == 3 && issues[0].severity == Critical
  {
    issues, affectedNodes := [], {};
    var cycles := FindCycles(networkGraph);
    for k := 0 to |cycles|
      invariant issues == Map(cycles[..k], LoopIssue(routerConnections))
      invariant affectedNodes == OnLoops(cycles[..k])
    {
      var cycle := cycles[k];
      assert cycle in cycles;
      MapStep(cycles, k, LoopIssue(routerConnections));
      OnLoopsStep(cycles, k);
      if |cycle| >= 3 {
        var loopRouters := FindRoutersInLoop(cycle, routerConnections);
        issues := issues + [Issue("network-loops", Critical, |cycle|, cycle, cycle, loopRouters)];
        affectedNodes := affectedNodes + Elems(cycle);
      }
    }
    assert cycles[..|cycles|] == cycles;
    IssuesOfLoops(cycles, routerConnections);
    if Valid(networkGraph) {
      forall c | IsLoop(networkGraph, c) && 3 <= |c| <= MaxDepth + 1 ensures issues != [] {
        assert c[0] in Elems(c);
        assert cycles != [];
      }
      if |networkGraph.keys| == 3 && (exists c :: IsLoop(networkGraph, c) && |c| == 3) {
        TriangleOnce(networkGraph, cycles);
        var c :| IsLoop(networkGraph, c) && |c| == 3;
        assert c[0] in Elems(c);
        assert cycles[0] in cycles;
      }
    }
  }

  /** `check_network_loops`. With fewer than two networks: nothing. With exactly two: one critical
      finding, of loop size 2 and path [n1, n2, n1], iff some router link joins them. With three or
      more: one critical finding per loop the search keeps, its path a loop of three to six networks
      starting at its least one, no two over the same networks; the affected nodes are the networks
      on them, and every network from which the search finds a loop is among them. No triples. */
  method CheckNetworkLoops(g: Graph) returns (issues: seq<Issue>, affectedTriples: seq<Triple>, affectedNodes: set<Node>)
    ensures affectedTriples == []
    ensures |Build(Links(g)).networks.keys| < 2 ==> issues == [] && affectedNodes == {}
    ensures var topo := Build(Links(g)); var keys := topo.networks.keys;
      |keys| == 2 ==>
        if exists l :: l in Links(g) && Joins(l, keys[0], keys[1]) then
          && issues == [Issue("network-loops", Critical, 2, [keys[0], keys[1], keys[0]], [keys[0], keys[1]],
                              RoutersInLoop([keys[0], keys[1]], topo.routers))]
          && affectedNodes == {keys[0], keys[1]}
        else issues == [] && affectedNodes == {}
    ensures var topo := Build(Links(g)); var adj := topo.networks;
      |adj.keys| >= 3 ==>
        && Reported(adj, Map(issues, PathOf))
        && (forall issue | issue in issues :: issue == LoopIssue(topo.routers)(issue.loopPath))
        && affectedNodes == OnLoops(Map(issues, PathOf))
        && affectedNodes <= Elems(adj.keys)
        && (forall n | n in adj.keys && SearchFrom(adj, n) != [] :: n in affectedNodes)
        && (forall c | IsLoop(adj, c) && 3 <= |c| <= MaxDepth + 1 :: Elems(c) <= affectedNodes && issues != [])
        && (|adj.keys| == 3 && (exists c :: IsLoop(adj, c) && |c| == 3) ==>
              |issues| == 1 && issues[0].loopSize == 3 && issues[0].severity == Critical)
  {
    issues, affectedTriples, affectedNodes := [], [], {};
    var topo := BuildNetworkGraphWithRouters(g);
    var networkGraph, routerConnections := topo.networks, topo.routers;
    if |networkGraph.keys| < 2 {
      return;
    }
    if |networkGraph.keys| == 2 {
      var net1, net2 := networkGraph.keys[0], networkGraph.keys[1];
      BuildNetworks(Links(g), net1, net2);
      BuildNetworks(Links(g), net2, net1);
      issues, affectedNodes := ReportPair(networkGraph, routerConnections, net1, net2);
      return;
    }
    BuildValid(Links(g));
    issues, affectedNodes := ReportLoops(networkGraph, routerConnections);
  }
}
