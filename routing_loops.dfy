/** graph_checks/routing_inefficiencies.py, second part: `_check_routing_loops`, the depth-first
    search for loops in the network connection map and the findings made of the loops it meets. */
module RoutingLoops {
  import opened Seqs
  import opened Text
  import opened Bacnet
  import opened Reach
  import opened RoutingGraph

  // ---------------------------------------------------------------------------------------------
  // Paths and loops

  /** Each network after the first is connected to the one before it. */
  ghost predicate Path(conn: map<Node, set<Node>>, p: seq<Node>) {
    forall i | 0 <= i < |p| - 1 :: p[i + 1] in Succ(conn, p[i])
  }

  /** A loop as the search records it: a path back to its first network, the networks before the
      closing one all different, the closing one included in the length test (`len(cycle) > 2`). */
  ghost predicate IsLoop(conn: map<Node, set<Node>>, c: seq<Node>) {
    |c| > 2 && c[0] == c[|c| - 1] && Path(conn, c) && Distinct(c[..|c| - 1])
  }

  ghost predicate AllLoops(conn: map<Node, set<Node>>, found: seq<seq<Node>>) {
    forall c | c in found :: IsLoop(conn, c)
  }

  /** `x` lies on a recorded loop of two networks (`[a, b, a]`). */
  ghost predicate OnPairLoop(found: seq<seq<Node>>, x: Node) {
    exists c | c in found :: |c| == 3 && x in c
  }

  /** Every network the search has finished with (visited and off the stack) has all its
      neighbours visited. */
  ghost predicate Finished(conn: map<Node, set<Node>>, visited: set<Node>, stack: set<Node>) {
    forall x | x in visited && x !in stack :: Succ(conn, x) <= visited
  }

  /** Every network that occurs in the connection map. */
  ghost function Nodes(conn: map<Node, set<Node>>): set<Node> {
    conn.Keys + set a, b | a in conn && b in conn[a] :: b
  }

  /** `path[path.index(connected):] + [connected]`. */
  function CycleAt(p: seq<Node>, c: Node): (r: seq<Node>)
    requires c in p
    ensures |r| >= 2 && r[0] == c && r[|r| - 1] == c
  {
    p[IndexOf(p, c)..] + [c]
  }

  /** In a sequence without repeats an element's first index is its index. */
  lemma IndexOfDistinct(p: seq<Node>, k: nat)
    requires Distinct(p) && k < |p|
    ensures IndexOf(p, p[k]) == k
  {
    var i := IndexOf(p, p[k]);
    assert p[i] == p[k];
  }

  /** The loop the search records on meeting `c` on its stack `p` is a loop. */
  lemma CycleLoop(conn: map<Node, set<Node>>, p: seq<Node>, c: Node)
    requires Path(conn, p) && Distinct(p) && c in p && c in Succ(conn, p[|p| - 1]) && |CycleAt(p, c)| > 2
    ensures IsLoop(conn, CycleAt(p, c))
  {
    var k := IndexOf(p, c);
    var r := CycleAt(p, c);
    assert r[..|r| - 1] == p[k..];
    forall i | 0 <= i < |r| - 1 ensures r[i + 1] in Succ(conn, r[i]) {
      if i < |r| - 2 {
        assert r[i] == p[k + i] && r[i + 1] == p[k + i + 1];
      } else {
        assert r[i] == p[|p| - 1];
      }
    }
    forall i, j | 0 <= i < j < |p[k..]| ensures p[k..][i] != p[k..][j] {
      assert p[k..][i] == p[k + i] && p[k..][j] == p[k + j];
    }
  }

  /** A step to a neighbour of its last network extends a path, to a network of the map. */
  lemma PathStep(conn: map<Node, set<Node>>, p: seq<Node>, c: Node)
    requires Path(conn, p) && p != [] && c in Succ(conn, p[|p| - 1])
    ensures Path(conn, p + [c]) && c in Nodes(conn)
  {
    forall i | 0 <= i < |p + [c]| - 1 ensures (p + [c])[i + 1] in Succ(conn, (p + [c])[i]) {
      if i < |p| - 1 {
        assert (p + [c])[i] == p[i] && (p + [c])[i + 1] == p[i + 1];
      }
    }
  }

  /** Meeting the network it came from, the search records the two-network loop. */
  lemma ParentCycle(p: seq<Node>)
    requires |p| >= 2 && Distinct(p)
    ensures CycleAt(p, p[|p| - 2]) == [p[|p| - 2], p[|p| - 1], p[|p| - 2]]
  {
    IndexOfDistinct(p, |p| - 2);
  }

  /** Recording more loops keeps the recorded two-network loops. */
  lemma PairLoopKept(found: seq<seq<Node>>, more: seq<seq<Node>>, x: Node)
    requires OnPairLoop(found, x) && found <= more
    ensures OnPairLoop(more, x)
  {
    var c :| c in found && |c| == 3 && x in c;
    var i :| 0 <= i < |found| && found[i] == c;
    assert more[i] == c;
  }

  lemma PairLoopsKept(found: seq<seq<Node>>, more: seq<seq<Node>>)
    requires found <= more
    ensures forall x | OnPairLoop(found, x) :: OnPairLoop(more, x)
  {
    forall x | OnPairLoop(found, x) ensures OnPairLoop(more, x) {
      PairLoopKept(found, more, x);
    }
  }

  // ---------------------------------------------------------------------------------------------
  // The shape of the search

  /** No recorded loop has more than two networks. */
  ghost predicate ShortOnly(found: seq<seq<Node>>) {
    forall c | c in found :: |c| <= 3
  }

  /** The connections go both ways and never join a network to itself. */
  ghost predicate Undirected(conn: map<Node, set<Node>>) {
    BothWays(conn) && NoSelfLinks(conn)
  }

  /** `depth` gives each network on the stack its position there. */
  ghost predicate StackDepths(path: seq<Node>, depth: map<Node, nat>) {
    forall k | 0 <= k < |path| :: path[k] in depth && depth[path[k]] == k
  }

  /** A network's parent, the network the search came from, lies one level above it. */
  ghost predicate ParentsAbove(depth: map<Node, nat>, parent: map<Node, Node>) {
    forall x | x in parent :: x in depth && parent[x] in depth && depth[parent[x]] + 1 == depth[x]
  }

  /** A network of `done` lies below each of its neighbours on the stack. */
  ghost predicate StackAbove(conn: map<Node, set<Node>>, depth: map<Node, nat>, done: set<Node>, stack: set<Node>) {
    forall y, z | y in done && z in Succ(conn, y) && z in stack :: y in depth && z in depth && depth[z] < depth[y]
  }

  /** The neighbour `z` of `y` lies one level below it, or is its parent. */
  ghost predicate TreeLink(depth: map<Node, nat>, parent: map<Node, Node>, y: Node, z: Node) {
    y in depth && z in depth && (depth[z] == depth[y] + 1 || (y in parent && z == parent[y]))
  }

  /** Every network of `zs` is linked to `y` as in a tree. */
  ghost predicate LinkedTo(depth: map<Node, nat>, parent: map<Node, Node>, y: Node, zs: set<Node>) {
    forall z | z in zs :: TreeLink(depth, parent, y, z)
  }

  /** Every connection out of a network of `done` is a link of a tree. */
  ghost predicate TreeShaped(conn: map<Node, set<Node>>, depth: map<Node, nat>, parent: map<Node, Node>, done: set<Node>) {
    forall y | y in done :: LinkedTo(depth, parent, y, Succ(conn, y))
  }

  /** What the search keeps true of the tree it walks, with `path` as its stack: every visited
      network has a depth; the stack's networks sit at their positions; parents lie one level up;
      a finished network lies below its neighbours on the stack; and, as long as no recorded loop
      has more than two networks, the connections out of the finished networks are tree links. */
  ghost predicate Forest(conn: map<Node, set<Node>>, path: seq<Node>, visited: set<Node>, found: seq<seq<Node>>,
                         depth: map<Node, nat>, parent: map<Node, Node>) {
    && depth.Keys == visited
    && StackDepths(path, depth) && ParentsAbove(depth, parent)
    && StackAbove(conn, depth, visited - Elems(path), Elems(path))
    && (Undirected(conn) && ShortOnly(found) ==> TreeShaped(conn, depth, parent, visited - Elems(path)))
  }

  /** `depth'` and `parent'` keep every entry of `depth` and `parent`. */
  ghost predicate Extends(depth: map<Node, nat>, depth': map<Node, nat>, parent: map<Node, Node>, parent': map<Node, Node>) {
    && (forall x | x in depth :: x in depth' && depth'[x] == depth[x])
    && (forall x | x in parent :: x in parent' && parent'[x] == parent[x])
  }

  lemma ExtendsTrans(d0: map<Node, nat>, d1: map<Node, nat>, d2: map<Node, nat>,
                     p0: map<Node, Node>, p1: map<Node, Node>, p2: map<Node, Node>)
    requires Extends(d0, d1, p0, p1) && Extends(d1, d2, p1, p2)
    ensures Extends(d0, d2, p0, p2)
  {
  }

  /** Tree links survive new entries. */
  lemma LinkedExtends(depth: map<Node, nat>, depth': map<Node, nat>, parent: map<Node, Node>, parent': map<Node, Node>,
                      y: Node, zs: set<Node>)
    requires LinkedTo(depth, parent, y, zs) && Extends(depth, depth', parent, parent')
    ensures LinkedTo(depth', parent', y, zs)
  {
    forall z | z in zs ensures TreeLink(depth', parent', y, z) {
      assert TreeLink(depth, parent, y, z);
    }
  }

  /** Recording more loops can only end a run of short ones. */
  lemma ShortOnlyPrefix(found: seq<seq<Node>>, found': seq<seq<Node>>)
    requires found <= found'
    ensures ShortOnly(found') ==> ShortOnly(found)
  {
    forall c | c in found ensures c in found' {
      var i :| 0 <= i < |found| && found[i] == c;
      assert found'[i] == c;
    }
  }

  /** Visiting `network` from the stack `path` pushes it at depth `|path|`, with the top of the stack
      as its parent. */
  lemma ForestPush(conn: map<Node, set<Node>>, path: seq<Node>, network: Node, visited: set<Node>, found: seq<seq<Node>>,
                   depth: map<Node, nat>, parent: map<Node, Node>, depth': map<Node, nat>, parent': map<Node, Node>)
    requires Forest(conn, path, visited, found, depth, parent)
    requires network !in visited && Elems(path) <= visited && Finished(conn, visited, Elems(path))
    requires depth' == depth[network := |path|]
    requires parent' == if path == [] then parent else parent[network := path[|path| - 1]]
    ensures Forest(conn, path + [network], visited + {network}, found, depth', parent')
    ensures Extends(depth, depth', parent, parent')
  {
    PushSets(path, network, visited);
    PushDepths(path, network, depth, depth');
    PushParents(path, network, depth, parent, depth', parent');
    PushAbove(conn, path, network, visited, depth, depth');
    var up := if path == [] then network else path[|path| - 1];
    if Undirected(conn) && ShortOnly(found) {
      PushTree(conn, visited - Elems(path), visited, network, |path|, up, depth, parent, depth', parent');
    }
    assert network !in parent;
    PushExtends(depth, parent, network, |path|, up, depth', parent');
  }

  lemma PushExtends(depth: map<Node, nat>, parent: map<Node, Node>, network: Node, d: nat, up: Node,
                    depth': map<Node, nat>, parent': map<Node, Node>)
    requires network !in depth && network !in parent
    requires depth' == depth[network := d]
    requires parent' == parent || parent' == parent[network := up]
    ensures Extends(depth, depth', parent, parent')
  {
  }

  lemma PushSets(path: seq<Node>, network: Node, visited: set<Node>)
    requires network !in visited
    ensures Elems(path + [network]) == Elems(path) + {network}
    ensures visited + {network} - Elems(path + [network]) == visited - Elems(path)
  {
    ElemsAppend(path, [network]);
  }

  lemma PushDepths(path: seq<Node>, network: Node, depth: map<Node, nat>, depth': map<Node, nat>)
    requires StackDepths(path, depth) && network !in path && depth' == depth[network := |path|]
    ensures StackDepths(path + [network], depth')
  {
    var p := path + [network];
    forall k | 0 <= k < |p| ensures p[k] in depth' && depth'[p[k]] == k {
      if k < |path| {
        assert p[k] == path[k];
      }
    }
  }

  lemma PushParents(path: seq<Node>, network: Node, depth: map<Node, nat>, parent: map<Node, Node>,
                    depth': map<Node, nat>, parent': map<Node, Node>)
    requires ParentsAbove(depth, parent) && StackDepths(path, depth) && network !in depth
    requires depth' == depth[network := |path|]
    requires parent' == if path == [] then parent else parent[network := path[|path| - 1]]
    ensures ParentsAbove(depth', parent')
  {
    if path != [] {
      assert path[|path| - 1] in depth;
    }
  }

  lemma PushAbove(conn: map<Node, set<Node>>, path: seq<Node>, network: Node, visited: set<Node>,
                  depth: map<Node, nat>, depth': map<Node, nat>)
    requires StackAbove(conn, depth, visited - Elems(path), Elems(path)) && depth.Keys == visited
    requires network !in visited && Finished(conn, visited, Elems(path)) && depth' == depth[network := |path|]
    ensures StackAbove(conn, depth', visited - Elems(path), Elems(path) + {network})
  {
  }

  lemma PushTree(conn: map<Node, set<Node>>, done: set<Node>, visited: set<Node>, network: Node, d: nat, up: Node,
                 depth: map<Node, nat>, parent: map<Node, Node>, depth': map<Node, nat>, parent': map<Node, Node>)
    requires TreeShaped(conn, depth, parent, done) && done <= visited && network !in visited && depth.Keys == visited
    requires forall y | y in done :: Succ(conn, y) <= visited
    requires depth' == depth[network := d]
    requires parent' == parent || parent' == parent[network := up]
    ensures TreeShaped(conn, depth', parent', done)
  {
    forall y | y in done ensures LinkedTo(depth', parent', y, Succ(conn, y)) {
      assert LinkedTo(depth, parent, y, Succ(conn, y));
      forall z | z in Succ(conn, y) ensures TreeLink(depth', parent', y, z) {
        assert TreeLink(depth, parent, y, z);
      }
    }
  }

  /** Finishing `network`, linked as in a tree to all its neighbours while the recorded loops are
      short, pops it off the stack. */
  lemma ForestPop(conn: map<Node, set<Node>>, path: seq<Node>, network: Node, visited: set<Node>, found: seq<seq<Node>>,
                  depth: map<Node, nat>, parent: map<Node, Node>)
    requires Forest(conn, path + [network], visited, found, depth, parent)
    requires network in visited && network !in path
    requires Undirected(conn) && ShortOnly(found) ==> LinkedTo(depth, parent, network, Succ(conn, network))
    ensures Forest(conn, path, visited, found, depth, parent)
  {
    var p := path + [network];
    ElemsAppend(path, [network]);
    assert visited - Elems(path) == (visited - Elems(p)) + {network};
    forall k | 0 <= k < |path| ensures path[k] in depth && depth[path[k]] == k {
      assert path[k] == p[k];
    }
    assert depth[network] == |path| by {
      assert p[|path|] == network;
    }
  }

  /** The network of `q` that lies deepest. */
  lemma Deepest(depth: map<Node, nat>, q: seq<Node>) returns (m: nat)
    requires |q| > 0 && forall x | x in q :: x in depth
    ensures m < |q| && forall k | 0 <= k < |q| :: depth[q[k]] <= depth[q[m]]
  {
    m := 0;
    for i := 1 to |q|
      invariant m < |q| && forall k | 0 <= k < i :: depth[q[k]] <= depth[q[m]]
    {
      if depth[q[i]] > depth[q[m]] {
        m := i;
      }
    }
  }

  /** A loop of three or more networks has a connection that is no tree link: at its deepest
      network, the next network and the previous one on the loop differ, and only one of them can
      be its parent. */
  lemma LongLoopNotTree(conn: map<Node, set<Node>>, depth: map<Node, nat>, parent: map<Node, Node>, c: seq<Node>)
    returns (y: Node, z: Node)
    requires BothWays(conn) && IsLoop(conn, c) && |c| > 3 && forall x | x in c :: x in depth
    ensures y in c && z in Succ(conn, y) && !TreeLink(depth, parent, y, z)
  {
    var n := |c| - 1;
    var q := c[..n];
    var m := Deepest(depth, q);
    y := q[m];
    var ni := if m + 1 < n then m + 1 else 0;
    assert c[m] == y && c[m + 1] == q[ni];
    assert q[ni] in Succ(conn, y);
    var pi := if m > 0 then m - 1 else n - 1;
    assert c[pi + 1] == y && c[pi] == q[pi];
    assert q[pi] in Succ(conn, y);
    assert q[ni] != q[pi];
    if TreeLink(depth, parent, y, q[ni]) {
      z := q[pi];
    } else {
      z := q[ni];
    }
  }

  /** A part of the connections whose every connection is a tree link holds no loop of three or
      more networks. */
  lemma TreeHasNoLongLoop(conn: map<Node, set<Node>>, depth: map<Node, nat>, parent: map<Node, Node>, done: set<Node>,
                          c: seq<Node>)
    requires BothWays(conn) && TreeShaped(conn, depth, parent, done)
    requires IsLoop(conn, c) && Elems(c) <= done
    ensures |c| <= 3
  {
    if |c| > 3 {
      forall x | x in c ensures x in depth {
        assert x in done;
        assert LinkedTo(depth, parent, x, Succ(conn, x));
        var k :| 0 <= k < |c| && c[k] == x;
        var i := if k < |c| - 1 then k else 0;
        assert c[i] == x && c[i + 1] in Succ(conn, c[i]);
        assert TreeLink(depth, parent, x, c[i + 1]);
      }
      var y, z := LongLoopNotTree(conn, depth, parent, c);
      assert false;
    }
  }

  /** Every network of a path that starts among the finished networks is among them. */
  lemma PathInside(conn: map<Node, set<Node>>, visited: set<Node>, c: seq<Node>)
    requires Finished(conn, visited, {}) && Path(conn, c) && c != [] && c[0] in visited
    ensures Elems(c) <= visited
  {
    for i := 1 to |c|
      invariant forall k | 0 <= k < i :: c[k] in visited
    {
      assert c[i] in Succ(conn, c[i - 1]);
    }
  }

  // ---------------------------------------------------------------------------------------------
  // The search

  /** `dfs_cycle_detect(network, path)`. `visited` and the loops found so far are shared with the
      caller and come back updated; the stack `rec_stack` is the set of `path`, which the call
      hands back as it found it. A call visits `network`, finishes it with every neighbour
      visited, and records only loops. When the connections go both ways, the call records the
      loop back to the network it came from, puts every network it newly visits below it on a
      two-network loop, and, when it starts with none of the network's neighbours visited, puts the
      network itself on one. The ghost `depth` and `parent` record the search tree: the call puts
      `network` at depth `|path|` and keeps `Forest`. */
  method DfsCycleDetect(conn: map<Node, set<Node>>, network: Node, path: seq<Node>, visited: set<Node>,
                        recStack: set<Node>, found: seq<seq<Node>>, ghost depth: map<Node, nat>, ghost parent: map<Node, Node>)
    returns (visited': set<Node>, found': seq<seq<Node>>, ghost depth': map<Node, nat>, ghost parent': map<Node, Node>)
    requires network !in visited
    requires recStack == Elems(path) && recStack <= visited && Distinct(path)
    requires Path(conn, path + [network])
    requires Finished(conn, visited, recStack)
    requires AllLoops(conn, found)
    requires Forest(conn, path, visited, found, depth, parent)
    ensures visited + {network} <= visited'
    ensures Finished(conn, visited', recStack)
    ensures found <= found' && AllLoops(conn, found')
    ensures Forest(conn, path, visited', found', depth', parent')
    ensures Extends(depth, depth', parent, parent') && network in depth' && depth'[network] == |path|
    ensures BothWays(conn) && path != [] ==> [path[|path| - 1], network, path[|path| - 1]] in found'
    ensures BothWays(conn) ==> forall x | x in visited' - visited && x != network :: OnPairLoop(found', x)
    ensures BothWays(conn) && NoSelfLinks(conn) && Succ(conn, network) != {} && Succ(conn, network) !! visited ==>
      OnPairLoop(found', network)
    decreases Nodes(conn) + {network} - visited
  {
    ElemsAppend(path, [network]);
    DistinctSnoc(path, network);
    ghost var depth1 := depth[network := |path|];
    ghost var parent1 := if path == [] then parent else parent[network := path[|path| - 1]];
    ForestPush(conn, path, network, visited, found, depth, parent, depth1, parent1);
    var neighbours := ListOf(Succ(conn, network));
    visited', found', depth', parent' := ExploreAll(conn, network, path, visited, recStack, neighbours, found, depth1, parent1);
    ForestPop(conn, path, network, visited', found', depth', parent');
    ExtendsTrans(depth, depth1, depth', parent, parent1, parent');
  }

  /** The loop of `dfs_cycle_detect` over the neighbours of `network`, pushed on the stack. */
  method ExploreAll(conn: map<Node, set<Node>>, network: Node, path: seq<Node>, visited0: set<Node>,
                    recStack: set<Node>, neighbours: seq<Node>, found: seq<seq<Node>>,
                    ghost depth1: map<Node, nat>, ghost parent1: map<Node, Node>)
    returns (visited': set<Node>, found': seq<seq<Node>>, ghost depth': map<Node, nat>, ghost parent': map<Node, Node>)
    requires Elems(neighbours) == Succ(conn, network)
    requires network !in visited0
    requires recStack == Elems(path) && recStack <= visited0 && Distinct(path + [network])
    requires Path(conn, path + [network])
    requires Finished(conn, visited0 + {network}, recStack + {network})
    requires AllLoops(conn, found)
    requires Forest(conn, path + [network], visited0 + {network}, found, depth1, parent1)
    requires path != [] ==> network in parent1 && parent1[network] == path[|path| - 1]
    ensures visited0 + {network} <= visited' && Succ(conn, network) <= visited'
    ensures Finished(conn, visited', recStack + {network})
    ensures found <= found' && AllLoops(conn, found')
    ensures Forest(conn, path + [network], visited', found', depth', parent') && Extends(depth1, depth', parent1, parent')
    ensures Undirected(conn) && ShortOnly(found') ==> LinkedTo(depth', parent', network, Succ(conn, network))
    ensures BothWays(conn) && path != [] ==> [path[|path| - 1], network, path[|path| - 1]] in found'
    ensures BothWays(conn) ==> forall x | x in visited' - visited0 && x != network :: OnPairLoop(found', x)
    ensures BothWays(conn) && NoSelfLinks(conn) && Succ(conn, network) != {} && Succ(conn, network) !! visited0 ==>
      OnPairLoop(found', network)
    decreases Nodes(conn) + {network} - visited0, 1
  {
    var p := path + [network];
    var stack := recStack + {network};
    visited' := visited0 + {network};
    found' := found;
    depth', parent' := depth1, parent1;
    for j := 0 to |neighbours|
      invariant visited0 + {network} <= visited'
      invariant Finished(conn, visited', stack)
      invariant Elems(neighbours[..j]) <= visited'
      invariant found <= found' && AllLoops(conn, found')
      invariant Forest(conn, p, visited', found', depth', parent') && Extends(depth1, depth', parent1, parent')
      invariant Undirected(conn) && ShortOnly(found') ==> LinkedTo(depth', parent', network, Elems(neighbours[..j]))
      invariant PairsSoFar(conn, network, path, visited0, Elems(neighbours[..j]), visited', found')
    {
      ElemsStep(neighbours, j);
      visited', found', depth', parent' := Explore(conn, network, path, visited0, recStack, neighbours[j], visited', found',
                                                   depth1, parent1, depth', parent', Elems(neighbours[..j]));
    }
    assert neighbours[..|neighbours|] == neighbours;
    if BothWays(conn) && path != [] {
      ParentNeighbour(conn, path, network);
      assert path[|path| - 1] in Elems(neighbours);
    }
    if Succ(conn, network) != {} {
      assert neighbours != [] && neighbours[0] in Elems(neighbours);
    }
  }

  /** With connections both ways, the network the search came from is a neighbour. */
  lemma ParentNeighbour(conn: map<Node, set<Node>>, path: seq<Node>, network: Node)
    requires BothWays(conn) && Path(conn, path + [network]) && path != []
    ensures path[|path| - 1] in Succ(conn, network)
  {
    var p := path + [network];
    assert p[|path| - 1] == path[|path| - 1] && p[|path|] == network;
  }

  /** The two-network loops the search has recorded around `network`, pushed on the stack `path`
      over `visited0`, once it has met the neighbours `seen`: the loop back to the network it came
      from once that one is met, one through every network visited since, and one through
      `network` itself once any neighbour is met, if none was visited before. */
  ghost predicate PairsSoFar(conn: map<Node, set<Node>>, network: Node, path: seq<Node>, visited0: set<Node>,
                             seen: set<Node>, visited: set<Node>, found: seq<seq<Node>>) {
    && (seen == {} ==> visited == visited0 + {network})
    && (BothWays(conn) && path != [] && path[|path| - 1] in seen ==> [path[|path| - 1], network, path[|path| - 1]] in found)
    && (BothWays(conn) ==> forall x | x in visited - visited0 && x != network :: OnPairLoop(found, x))
    && (BothWays(conn) && NoSelfLinks(conn) && Succ(conn, network) !! visited0 && seen != {} ==> OnPairLoop(found, network))
  }

  /** One neighbour `connected` of `network` in the search's loop: visit it when it is new; record
      the loop when it is on the stack. While the recorded loops stay short, `connected` is linked
      to `network` as in a tree. */
  method Explore(conn: map<Node, set<Node>>, network: Node, path: seq<Node>, ghost visited0: set<Node>,
                 recStack: set<Node>, connected: Node, visited: set<Node>, found: seq<seq<Node>>,
                 ghost depth1: map<Node, nat>, ghost parent1: map<Node, Node>, ghost depth: map<Node, nat>,
                 ghost parent: map<Node, Node>, ghost done: set<Node>)
    returns (visited': set<Node>, found': seq<seq<Node>>, ghost depth': map<Node, nat>, ghost parent': map<Node, Node>)
    requires connected in Succ(conn, network)
    requires network !in visited0 && visited0 + {network} <= visited && done <= visited
    requires recStack == Elems(path) && recStack <= visited0 && Distinct(path + [network])
    requires Path(conn, path + [network])
    requires Finished(conn, visited, recStack + {network})
    requires AllLoops(conn, found)
    requires Forest(conn, path + [network], visited, found, depth, parent)
    requires Extends(depth1, depth, parent1, parent)
    requires path != [] ==> network in parent1 && parent1[network] == path[|path| - 1]
    requires Undirected(conn) && ShortOnly(found) ==> LinkedTo(depth, parent, network, done)
    requires PairsSoFar(conn, network, path, visited0, done, visited, found)
    ensures visited <= visited' && done + {connected} <= visited'
    ensures Finished(conn, visited', recStack + {network})
    ensures found <= found' && AllLoops(conn, found')
    ensures Forest(conn, path + [network], visited', found', depth', parent') && Extends(depth1, depth', parent1, parent')
    ensures Undirected(conn) && ShortOnly(found') ==> LinkedTo(depth', parent', network, done + {connected})
    ensures PairsSoFar(conn, network, path, visited0, done + {connected}, visited', found')
    decreases Nodes(conn) + {network} - visited0, 0
  {
    var p := path + [network];
    var stack := recStack + {network};
    ElemsAppend(path, [network]);
    visited', found', depth', parent' := visited, found, depth, parent;
    if connected !in visited {
      PathStep(conn, p, connected);
      visited', found', depth', parent' := DfsCycleDetect(conn, connected, p, visited, stack, found, depth, parent);
      if BothWays(conn) {
        assert [network, connected, network] in found';
        assert OnPairLoop(found', connected);
      }
      TreeChild(conn, network, path, connected, found, found', depth, depth', parent, parent', done);
      ExtendsTrans(depth1, depth, depth', parent1, parent, parent');
    } else if connected in stack {
      found' := RecordLoop(conn, path, network, connected, found);
      ShortOnlyPrefix(found, found');
      TreeParent(conn, network, path, connected, found, found', depth, parent, done);
    } else {
      TreeFinished(conn, network, path, connected, visited, found, depth, parent, done);
    }
    PairLoopsKept(found, found');
    PairsStep(conn, network, path, visited0, done, connected, visited, found, visited', found');
  }

  /** The two-network loops around `network`, one neighbour more. */
  lemma PairsStep(conn: map<Node, set<Node>>, network: Node, path: seq<Node>, visited0: set<Node>, done: set<Node>,
                  connected: Node, visited: set<Node>, found: seq<seq<Node>>, visited': set<Node>, found': seq<seq<Node>>)
    requires PairsSoFar(conn, network, path, visited0, done, visited, found)
    requires visited <= visited' && found <= found'
    requires forall x | OnPairLoop(found, x) :: OnPairLoop(found', x)
    requires BothWays(conn) ==> forall x | x in visited' - visited :: OnPairLoop(found', x)
    requires BothWays(conn) && path != [] && connected == path[|path| - 1] ==>
      [path[|path| - 1], network, path[|path| - 1]] in found'
    requires BothWays(conn) && NoSelfLinks(conn) && Succ(conn, network) !! visited0 && visited == visited0 + {network} ==>
      OnPairLoop(found', network)
    ensures PairsSoFar(conn, network, path, visited0, done + {connected}, visited', found')
  {
    if BothWays(conn) && path != [] && path[|path| - 1] in done {
      var l := [path[|path| - 1], network, path[|path| - 1]];
      var i :| 0 <= i < |found| && found[i] == l;
      assert found'[i] == l;
    }
  }

  /** A neighbour the search visits from `network` lies one level below it. */
  lemma TreeChild(conn: map<Node, set<Node>>, network: Node, path: seq<Node>, connected: Node, found: seq<seq<Node>>,
                  found': seq<seq<Node>>, depth: map<Node, nat>, depth': map<Node, nat>, parent: map<Node, Node>,
                  parent': map<Node, Node>, done: set<Node>)
    requires StackDepths(path + [network], depth) && Extends(depth, depth', parent, parent')
    requires connected in depth' && depth'[connected] == |path| + 1 && found <= found'
    requires Undirected(conn) && ShortOnly(found) ==> LinkedTo(depth, parent, network, done)
    ensures Undirected(conn) && ShortOnly(found') ==> LinkedTo(depth', parent', network, done + {connected})
  {
    if Undirected(conn) && ShortOnly(found') {
      ShortOnlyPrefix(found, found');
      LinkedExtends(depth, depth', parent, parent', network, done);
      assert (path + [network])[|path|] == network;
    }
  }

  /** A neighbour on the stack is, while the recorded loops stay short, the network the search came
      from. */
  lemma TreeParent(conn: map<Node, set<Node>>, network: Node, path: seq<Node>, connected: Node, found: seq<seq<Node>>,
                   found': seq<seq<Node>>, depth: map<Node, nat>, parent: map<Node, Node>, done: set<Node>)
    requires connected in Succ(conn, network) && StackDepths(path + [network], depth) && connected in path + [network]
    requires path != [] ==> network in parent && parent[network] == path[|path| - 1]
    requires connected != network && ShortOnly(found') ==> path != [] && connected == path[|path| - 1]
    requires ShortOnly(found') ==> ShortOnly(found)
    requires Undirected(conn) && ShortOnly(found) ==> LinkedTo(depth, parent, network, done)
    ensures Undirected(conn) && ShortOnly(found') ==> LinkedTo(depth, parent, network, done + {connected})
  {
    if Undirected(conn) && ShortOnly(found') {
      assert connected != network;
      assert (path + [network])[|path|] == network;
      var k :| 0 <= k < |path + [network]| && (path + [network])[k] == connected;
    }
  }

  /** A finished neighbour lies below `network`, on the stack, so `network` is its parent. */
  lemma TreeFinished(conn: map<Node, set<Node>>, network: Node, path: seq<Node>, connected: Node, visited: set<Node>,
                     found: seq<seq<Node>>, depth: map<Node, nat>, parent: map<Node, Node>, done: set<Node>)
    requires connected in Succ(conn, network) && connected in visited && connected !in Elems(path + [network])
    requires network in Elems(path + [network])
    requires Forest(conn, path + [network], visited, found, depth, parent)
    requires Undirected(conn) && ShortOnly(found) ==> LinkedTo(depth, parent, network, done)
    ensures Undirected(conn) && ShortOnly(found) ==> LinkedTo(depth, parent, network, done + {connected})
  {
    if Undirected(conn) && ShortOnly(found) {
      var stack := Elems(path + [network]);
      assert connected in visited - stack;
      assert network in Succ(conn, connected);
      assert depth[network] < depth[connected];
      assert LinkedTo(depth, parent, connected, Succ(conn, connected));
      assert TreeLink(depth, parent, connected, network);
    }
  }

  /** A neighbour `connected` on the stack `path + [network]`: the loop from it back to it is
      recorded when it is longer than two; meeting the network the search came from records the
      two-network loop; meeting any other network of the stack but `network` itself records a loop
      of three or more networks. */
  method RecordLoop(conn: map<Node, set<Node>>, path: seq<Node>, network: Node, connected: Node, found: seq<seq<Node>>)
    returns (found': seq<seq<Node>>)
    requires connected in Succ(conn, network) && connected in path + [network]
    requires Distinct(path + [network]) && Path(conn, path + [network])
    requires AllLoops(conn, found)
    ensures found <= found' && AllLoops(conn, found')
    ensures path != [] && connected == path[|path| - 1] ==> [path[|path| - 1], network, path[|path| - 1]] in found'
    ensures connected != network && (path == [] || connected != path[|path| - 1]) ==>
      exists c | c in found' :: |c| > 3
    ensures forall x | OnPairLoop(found, x) :: OnPairLoop(found', x)
  {
    var cycle := CycleAt(path + [network], connected);
    MetOnStack(conn, path, network, connected, cycle);
    found' := found;
    if |cycle| > 2 {
      found' := found + [cycle];
      assert cycle in found';
    }
    PairLoopsKept(found, found');
  }

  /** The loop met on the stack is a loop when it is longer than two, the two-network loop when
      `connected` is the network the search came from, and longer than three when `connected` is
      neither that network nor `network` itself. */
  lemma MetOnStack(conn: map<Node, set<Node>>, path: seq<Node>, network: Node, connected: Node, cycle: seq<Node>)
    requires connected in Succ(conn, network) && connected in path + [network]
    requires Distinct(path + [network]) && Path(conn, path + [network])
    requires cycle == CycleAt(path + [network], connected)
    ensures |cycle| > 2 ==> IsLoop(conn, cycle)
    ensures path != [] && connected == path[|path| - 1] ==> cycle == [connected, network, connected]
    ensures connected != network && (path == [] || connected != path[|path| - 1]) ==> |cycle| > 3
  {
    var p := path + [network];
    if |cycle| > 2 {
      CycleLoop(conn, p, connected);
    }
    if path != [] && connected == path[|path| - 1] {
      ParentCycle(p);
    }
    var k := IndexOf(p, connected);
    if connected != network && (path == [] || connected != path[|path| - 1]) {
      assert k != |path| && k != |path| - 1;
    }
  }

  /** The search from every network not yet visited, in the set's iteration order: every recorded
      loop is a loop. When the connections go both ways and never join a network to itself, every
      network of `networks` with a connection lies on a recorded two-network loop, and a loop of
      three or more networks through a network of `networks` makes the search record a loop of
      three or more networks (a connection to a network on the stack other than the one it came
      from). */
  method FindLoops(conn: map<Node, set<Node>>, networks: set<Node>) returns (found: seq<seq<Node>>)
    ensures AllLoops(conn, found)
    ensures BothWays(conn) && NoSelfLinks(conn) ==>
      forall x | x in networks && Succ(conn, x) != {} :: OnPairLoop(found, x)
    ensures BothWays(conn) && NoSelfLinks(conn) ==>
      forall c | IsLoop(conn, c) && |c| > 3 && c[0] in networks :: exists l | l in found :: |l| > 3
  {
    var order := ListOf(networks);
    var visited: set<Node> := {};
    found := [];
    ghost var depth: map<Node, nat> := map[];
    ghost var parent: map<Node, Node> := map[];
    for i := 0 to |order|
      invariant Elems(order[..i]) <= visited
      invariant Finished(conn, visited, {})
      invariant AllLoops(conn, found)
      invariant Forest(conn, [], visited, found, depth, parent)
      invariant BothWays(conn) && NoSelfLinks(conn) ==>
        forall x | x in visited && Succ(conn, x) != {} :: OnPairLoop(found, x)
    {
      assert order[..i + 1] == order[..i] + [order[i]];
      ElemsAppend(order[..i], [order[i]]);
      var network := order[i];
      if network !in visited {
        if BothWays(conn) {
          forall w | w in Succ(conn, network) ensures w !in visited {
            assert network in Succ(conn, w);
          }
        }
        assert Path(conn, [] + [network]);
        ghost var before := found;
        visited, found, depth, parent := DfsCycleDetect(conn, network, [], visited, {}, found, depth, parent);
        PairLoopsKept(before, found);
      }
    }
    assert order[..|order|] == order;
    LongLoopsFound(conn, networks, visited, found, depth, parent);
  }

  /** After the search, a loop of three or more networks through a searched network means a
      recorded loop of three or more networks. */
  lemma LongLoopsFound(conn: map<Node, set<Node>>, networks: set<Node>, visited: set<Node>, found: seq<seq<Node>>,
                       depth: map<Node, nat>, parent: map<Node, Node>)
    requires networks <= visited && Finished(conn, visited, {}) && Forest(conn, [], visited, found, depth, parent)
    ensures BothWays(conn) && NoSelfLinks(conn) ==>
      forall c | IsLoop(conn, c) && |c| > 3 && c[0] in networks :: exists l | l in found :: |l| > 3
  {
    if BothWays(conn) && NoSelfLinks(conn) {
      forall c | IsLoop(conn, c) && |c| > 3 && c[0] in networks ensures exists l | l in found :: |l| > 3 {
        if ShortOnly(found) {
          PathInside(conn, visited, c);
          var none: seq<Node> := [];
          assert visited - Elems(none) == visited;
          TreeHasNoLongLoop(conn, depth, parent, visited, c);
        }
      }
    }
  }

  // ---------------------------------------------------------------------------------------------
  // Normal form of a loop

  /** `loop[min_idx:-1] + loop[:min_idx] + [loop[min_idx]]`, where `min_idx` is the first position of
      the least network before the closing one. */
  function Normalize(c: seq<Node>): (r: seq<Node>)
    requires |c| >= 2
    ensures |r| == |c|
  {
    var q := c[..|c| - 1];
    var m := IndexOf(c, Min(q));
    assert m < |c| - 1 by {
      var k :| 0 <= k < |q| && q[k] == Min(q);
      assert c[k] == Min(q);
    }
    c[m..|c| - 1] + c[..m] + [c[m]]
  }

  /** A normalised loop is a loop over the same networks that starts, and ends, at its least
      network. */
  lemma NormalizeLoop(conn: map<Node, set<Node>>, c: seq<Node>)
    requires IsLoop(conn, c)
    ensures var r := Normalize(c);
      && IsLoop(conn, r) && Elems(r[..|r| - 1]) == Elems(c[..|c| - 1])
      && r[0] == Min(c[..|c| - 1]) && forall y | y in r :: !Less(y, r[0])
  {
    var n := |c| - 1;
    var q := c[..n];
    var m := IndexOf(c, Min(q));
    var r := Normalize(c);
    assert m < n && c[m] == Min(q) && r == q[m..] + q[..m] + [c[m]];
    assert r[..n] == q[m..] + q[..m];
    forall i | 0 <= i < n ensures r[i + 1] in Succ(conn, r[i]) {
      if i + 1 < n - m {
        assert r[i] == c[m + i] && r[i + 1] == c[m + i + 1];
      } else if i + 1 == n - m && m > 0 {
        assert r[i] == c[n - 1] && r[i + 1] == c[0] == c[n];
      } else if i + 1 < n {
        assert r[i] == c[i - (n - m)] && r[i + 1] == c[i + 1 - (n - m)];
      } else if m > 0 {
        assert r[i] == c[m - 1] && r[i + 1] == c[m];
      } else {
        assert r[i] == c[n - 1] && r[i + 1] == c[0] == c[n];
      }
    }
    assert Path(conn, r);
    RotateElems(q, m);
    assert r == r[..n] + [r[0]];
  }

  /** A turned sequence without repeats has the same elements and still no repeats. */
  lemma RotateElems(q: seq<Node>, m: nat)
    requires Distinct(q) && m <= |q|
    ensures Elems(q[m..] + q[..m]) == Elems(q) && Distinct(q[m..] + q[..m])
  {
    assert q == q[..m] + q[m..];
    ElemsAppend(q[..m], q[m..]);
    ElemsAppend(q[m..], q[..m]);
    forall x | x in q[m..] ensures x !in q[..m] {
      var i :| m <= i < |q| && q[i] == x;
    }
    DistinctAppend(q[m..], q[..m]);
  }

  // ---------------------------------------------------------------------------------------------
  // The findings

  /** The routers that take a loop over one of its steps: on the step's first network and serving
      the next. */
  ghost function LoopRouters(rg: RoutingGraph, loop: seq<Node>): set<Node> {
    set r, i | r in rg.routers && 0 <= i < |loop| - 1 && loop[i] in rg.routers[r] && loop[i + 1] in Succ(rg.routerServes, r) :: r
  }

  /** The routers on `from` that serve `to`. */
  ghost function StepRouters(rg: RoutingGraph, from: Node, to: Node): set<Node> {
    set r | r in rg.routers && from in rg.routers[r] && to in Succ(rg.routerServes, r)
  }

  /** The routers of the first `i` steps. */
  ghost function RoutersUpTo(rg: RoutingGraph, loop: seq<Node>, i: nat): set<Node>
    requires i < |loop|
  {
    if i == 0 then {} else RoutersUpTo(rg, loop, i - 1) + StepRouters(rg, loop[i - 1], loop[i])
  }

  /** The routers of all the steps are those of `LoopRouters`. */
  lemma {:induction false} RoutersUpToAll(rg: RoutingGraph, loop: seq<Node>, i: nat)
    requires i < |loop|
    ensures forall r :: r in RoutersUpTo(rg, loop, i) <==>
      exists k :: 0 <= k < i && r in rg.routers && loop[k] in rg.routers[r] && loop[k + 1] in Succ(rg.routerServes, r)
  {
    if i > 0 {
      RoutersUpToAll(rg, loop, i - 1);
    }
  }

  /** The innermost loop: the routers on `from` that serve `to`, over `router_networks` in its
      iteration order. */
  method AddStepRouters(rg: RoutingGraph, keys: seq<Node>, from: Node, to: Node, acc: set<Node>) returns (r: set<Node>)
    requires Elems(keys) == rg.routers.Keys
    ensures r == acc + StepRouters(rg, from, to)
  {
    r := acc;
    for j := 0 to |keys|
      invariant r == acc + set rr | rr in Elems(keys[..j]) && from in rg.routers[rr] && to in Succ(rg.routerServes, rr)
    {
      assert keys[..j + 1] == keys[..j] + [keys[j]];
      ElemsAppend(keys[..j], [keys[j]]);
      var router := keys[j];
      if from in rg.routers[router] && to in Succ(rg.routerServes, router) {
        r := r + {router};
      }
    }
    assert keys[..|keys|] == keys;
  }

  /** The loop over a loop's steps that collects `loop_routers`. */
  method FindLoopRouters(rg: RoutingGraph, loop: seq<Node>) returns (routers: set<Node>)
    requires |loop| >= 1
    ensures routers == LoopRouters(rg, loop)
  {
    var keys := ListOf(rg.routers.Keys);
    routers := {};
    for i := 0 to |loop| - 1
      invariant routers == RoutersUpTo(rg, loop, i)
    {
      routers := AddStepRouters(rg, keys, loop[i], loop[i + 1], routers);
    }
    RoutersUpToAll(rg, loop, |loop| - 1);
  }

  /** The finding for a normalised loop and its routers: `loop_length` counts the distinct networks,
      and a loop of at most four networks is critical. */
  function LoopIssue(loop: seq<Node>, routers: set<Node>): Issue
    requires |loop| >= 1
  {
    var networks := Elems(loop[..|loop| - 1]);
    RoutingLoop("routing-loop", if |networks| <= 4 then Critical else Warning, |networks|, networks, routers, loop)
  }

  /** The loop path of a loop finding. */
  function PathOf(x: Issue): seq<Node> {
    if x.RoutingLoop? then x.loopPath else []
  }

  /** What a loop finding states: its path is a loop of the connection map that starts at its least
      network; it lists that loop's networks and the routers along it; its length is the number of
      networks, and it is critical iff that is at most four, a warning otherwise. */
  ghost predicate LoopFinding(rg: RoutingGraph, x: Issue) {
    && x.RoutingLoop? && x.issueType == "routing-loop"
    && IsLoop(rg.connections, x.loopPath) && (forall y | y in x.loopPath :: !Less(y, x.loopPath[0]))
    && x.loopNetworks == Elems(x.loopPath[..|x.loopPath| - 1])
    && x.loopLength == |x.loopNetworks| == |x.loopPath| - 1
    && (x.severity == Critical <==> x.loopLength <= 4) && (x.severity == Critical || x.severity == Warning)
    && x.loopRouters == LoopRouters(rg, x.loopPath)
  }

  /** The finding made of a recorded loop states what `LoopFinding` says. */
  lemma LoopIssueFinding(rg: RoutingGraph, c: seq<Node>)
    requires IsLoop(rg.connections, c)
    ensures LoopFinding(rg, LoopIssue(Normalize(c), LoopRouters(rg, Normalize(c))))
  {
    var r := Normalize(c);
    NormalizeLoop(rg.connections, c);
    DistinctElems(r[..|r| - 1]);
  }

  /** A recorded two-network loop gives a finding of length two that lists its networks. */
  lemma PairIssue(rg: RoutingGraph, c: seq<Node>, x: Node)
    requires IsLoop(rg.connections, c) && |c| == 3 && x in c
    ensures var f := LoopIssue(Normalize(c), LoopRouters(rg, Normalize(c)));
      f.loopLength == 2 && x in f.loopNetworks && f.severity == Critical
  {
    NormalizeLoop(rg.connections, c);
    var r := Normalize(c);
    DistinctElems(r[..2]);
    assert c == c[..2] + [c[0]];
  }

  /** What the reporting loop keeps true after the first `i` recorded loops: every finding states
      what `LoopFinding` says and is the finding of its path, no two share a path, `processed` holds
      their paths, and the normal form of each loop seen is among them. */
  ghost predicate Reported(rg: RoutingGraph, found: seq<seq<Node>>, i: nat, issues: seq<Issue>, processed: set<seq<Node>>) {
    && i <= |found|
    && (forall x | x in issues :: LoopFinding(rg, x) && x == LoopIssue(x.loopPath, LoopRouters(rg, x.loopPath)))
    && (forall a, b | 0 <= a < b < |issues| :: PathOf(issues[a]) != PathOf(issues[b]))
    && processed == (set x | x in issues :: PathOf(x))
    && forall k | 0 <= k < i :: |found[k]| > 2 && Normalize(found[k]) in processed
  }

  /** The reporting loop's body for the `i`-th recorded loop. */
  method ReportLoop(rg: RoutingGraph, found: seq<seq<Node>>, i: nat, issues: seq<Issue>, processed: set<seq<Node>>)
    returns (issues': seq<Issue>, processed': set<seq<Node>>)
    requires AllLoops(rg.connections, found) && i < |found| && Reported(rg, found, i, issues, processed)
    ensures Reported(rg, found, i + 1, issues', processed')
  {
    assert found[i] in found;
    var normalized := Normalize(found[i]);
    issues', processed' := issues, processed;
    if normalized !in processed {
      var routers := FindLoopRouters(rg, normalized);
      LoopIssueFinding(rg, found[i]);
      var issue := LoopIssue(normalized, routers);
      processed' := processed + {normalized};
      issues' := issues + [issue];
      ReportedSnoc(rg, found, i, issues, processed, issue);
    }
  }

  /** Reporting the `i`-th loop's normal form, not seen before. */
  lemma ReportedSnoc(rg: RoutingGraph, found: seq<seq<Node>>, i: nat, issues: seq<Issue>, processed: set<seq<Node>>,
                     issue: Issue)
    requires i < |found| && |found[i]| > 2 && Reported(rg, found, i, issues, processed)
    requires issue == LoopIssue(Normalize(found[i]), LoopRouters(rg, Normalize(found[i]))) && LoopFinding(rg, issue)
    requires Normalize(found[i]) !in processed
    ensures Reported(rg, found, i + 1, issues + [issue], processed + {Normalize(found[i])})
  {
    var more := issues + [issue];
    PathsSnoc(issues, issue, processed);
    DistinctPathsSnoc(issues, issue, processed);
    forall k | 0 <= k < i + 1 ensures |found[k]| > 2 && Normalize(found[k]) in processed + {PathOf(issue)} {
    }
  }

  /** The paths of the findings, one finding more. */
  lemma PathsSnoc(issues: seq<Issue>, issue: Issue, processed: set<seq<Node>>)
    requires processed == (set x | x in issues :: PathOf(x))
    ensures processed + {PathOf(issue)} == (set x | x in issues + [issue] :: PathOf(x))
  {
    assert forall x :: x in issues + [issue] <==> x in issues || x == issue;
  }

  /** No two findings share a path, one finding more with a path not seen before. */
  lemma DistinctPathsSnoc(issues: seq<Issue>, issue: Issue, processed: set<seq<Node>>)
    requires processed == (set x | x in issues :: PathOf(x)) && PathOf(issue) !in processed
    requires forall a, b | 0 <= a < b < |issues| :: PathOf(issues[a]) != PathOf(issues[b])
    ensures forall a, b | 0 <= a < b < |issues + [issue]| :: PathOf((issues + [issue])[a]) != PathOf((issues + [issue])[b])
  {
    var more := issues + [issue];
    forall a, b | 0 <= a < b < |more| ensures PathOf(more[a]) != PathOf(more[b]) {
      if b == |issues| {
        assert more[a] in issues;
      } else {
        assert more[a] == issues[a] && more[b] == issues[b];
      }
    }
  }

  /** Once every recorded loop is reported, a network on a recorded two-network loop is on a
      critical finding of length two. */
  lemma PairsReported(rg: RoutingGraph, found: seq<seq<Node>>, issues: seq<Issue>, processed: set<seq<Node>>, n: Node)
    requires AllLoops(rg.connections, found) && Reported(rg, found, |found|, issues, processed)
    requires OnPairLoop(found, n)
    ensures exists x | x in issues :: x.RoutingLoop? && x.loopLength == 2 && n in x.loopNetworks && x.severity == Critical
  {
    var c :| c in found && |c| == 3 && n in c;
    var k :| 0 <= k < |found| && found[k] == c;
    assert Normalize(c) in processed;
    var x :| x in issues && PathOf(x) == Normalize(c);
    PairIssue(rg, c, n);
  }

  /** Once every recorded loop is reported, a recorded loop of three or more networks gives a finding
      of three or more networks. */
  lemma LongReported(rg: RoutingGraph, found: seq<seq<Node>>, issues: seq<Issue>, processed: set<seq<Node>>, l: seq<Node>)
    requires AllLoops(rg.connections, found) && Reported(rg, found, |found|, issues, processed)
    requires l in found && |l| > 3
    ensures exists x | x in issues :: x.RoutingLoop? && x.loopLength >= 3
  {
    var k :| 0 <= k < |found| && found[k] == l;
    assert Normalize(l) in processed;
    var x :| x in issues && PathOf(x) == Normalize(l);
    assert LoopFinding(rg, x);
  }

  /** A loop finding's networks are networks some connection leads to. */
  lemma LoopFindingInside(rg: RoutingGraph, x: Issue, networks: set<Node>)
    requires LoopFinding(rg, x) && forall a | a in rg.connections :: Succ(rg.connections, a) <= networks
    ensures x.loopNetworks <= networks
  {
    var c := x.loopPath;
    forall y | y in x.loopNetworks ensures y in networks {
      var i :| 0 <= i < |c| - 1 && c[i] == y;
      var j := if i == 0 then |c| - 2 else i - 1;
      assert c[j + 1] == y && y in Succ(rg.connections, c[j]);
    }
  }

  /** On three networks, a loop finding of three or more networks has exactly three, and is
      critical. */
  lemma TriangleCritical(rg: RoutingGraph, x: Issue, networks: set<Node>)
    requires LoopFinding(rg, x) && x.loopLength >= 3 && x.loopNetworks <= networks && |networks| == 3
    ensures x.loopLength == 3 && x.severity == Critical
  {
    SubsetCard(x.loopNetworks, networks);
  }

  lemma SubsetCard(a: set<Node>, b: set<Node>)
    requires a <= b
    ensures |a| <= |b|
  {
    assert b == a + (b - a);
  }

  /** `_check_routing_loops`: search the connection map for loops; then, over the recorded loops in
      order, normalise each and report each normal form once. Every finding states what
      `LoopFinding` says, no two share a path, and when the connections go both ways and never join
      a network to itself, every network with a connection is reported on a critical loop of two
      networks, and a loop of three or more networks through one of the networks gives a finding
      of three or more networks. */
  method CheckRoutingLoops(rg: RoutingGraph) returns (issues: seq<Issue>)
    ensures forall x | x in issues :: LoopFinding(rg, x)
    ensures forall a, b | 0 <= a < b < |issues| :: PathOf(issues[a]) != PathOf(issues[b])
    ensures BothWays(rg.connections) && NoSelfLinks(rg.connections) ==>
      forall n | n in rg.allNetworks && Succ(rg.connections, n) != {} ::
        exists x | x in issues :: x.RoutingLoop? && x.loopLength == 2 && n in x.loopNetworks && x.severity == Critical
    ensures BothWays(rg.connections) && NoSelfLinks(rg.connections) ==>
      forall c | IsLoop(rg.connections, c) && |c| > 3 && c[0] in rg.allNetworks ::
        exists x | x in issues :: x.RoutingLoop? && x.loopLength >= 3
  {
    var found := FindLoops(rg.connections, rg.allNetworks);
    var processed: set<seq<Node>> := {};
    issues := [];
    for i := 0 to |found|
      invariant Reported(rg, found, i, issues, processed)
    {
      issues, processed := ReportLoop(rg, found, i, issues, processed);
    }
    forall n | BothWays(rg.connections) && NoSelfLinks(rg.connections) && n in rg.allNetworks && Succ(rg.connections, n) != {}
      ensures exists x | x in issues :: x.RoutingLoop? && x.loopLength == 2 && n in x.loopNetworks && x.severity == Critical
    {
      PairsReported(rg, found, issues, processed, n);
    }
    forall c | BothWays(rg.connections) && NoSelfLinks(rg.connections) && IsLoop(rg.connections, c) && |c| > 3 &&
               c[0] in rg.allNetworks
      ensures exists x | x in issues :: x.RoutingLoop? && x.loopLength >= 3
    {
      var l :| l in found && |l| > 3;
      LongReported(rg, found, issues, processed, l);
    }
  }
}
