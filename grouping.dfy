/** Python's `defaultdict(list)` filled by `d[key].append(value)`, over a sequence of
    (key, value) pairs: the keys in first-insertion order and, per key, its values in order. */
module Grouping {
  import opened Seqs

  function Firsts<K, V>(pairs: seq<(K, V)>): (r: seq<K>)
    ensures |r| == |pairs|
    ensures forall i :: 0 <= i < |pairs| ==> r[i] == pairs[i].0
  {
    seq(|pairs|, i requires 0 <= i < |pairs| => pairs[i].0)
  }

  /** The keys of the dictionary, in the order they were first inserted. */
  function Keys<K(==), V>(pairs: seq<(K, V)>): (r: seq<K>)
    ensures Distinct(r)
    ensures forall k | k in r :: exists p | p in pairs :: p.0 == k
    ensures forall p | p in pairs :: p.0 in r
  {
    var fs := Firsts(pairs);
    var r := Dedup(fs);
    assert forall k | k in r :: exists p | p in pairs :: p.0 == k by {
      forall k | k in r ensures exists p | p in pairs :: p.0 == k {
        var i :| 0 <= i < |fs| && fs[i] == k;
        assert pairs[i] in pairs;
      }
    }
    assert forall p | p in pairs :: p.0 in fs by {
      forall p | p in pairs ensures p.0 in fs {
        var i :| 0 <= i < |pairs| && pairs[i] == p;
        assert fs[i] == p.0;
      }
    }
    r
  }

  /** The list stored under `k`: every value paired with `k`, in order. */
  function Values<K(==), V>(pairs: seq<(K, V)>, k: K): (r: seq<V>)
    ensures |r| <= |pairs|
    ensures forall v | v in r :: (k, v) in pairs
    ensures forall p | p in pairs && p.0 == k :: p.1 in r
  {
    if pairs == [] then []
    else
      var last := pairs[|pairs| - 1];
      Values(pairs[..|pairs| - 1], k) + (if last.0 == k then [last.1] else [])
  }

  /** A key is present exactly when its list is non-empty. */
  lemma KeysValues<K, V>(pairs: seq<(K, V)>, k: K)
    ensures k in Keys(pairs) <==> Values(pairs, k) != []
  {
    if k in Keys(pairs) {
      var p :| p in pairs && p.0 == k;
      assert p.1 in Values(pairs, k);
    }
  }

  lemma {:induction false} KeysAppend<K, V>(pairs: seq<(K, V)>, p: (K, V))
    ensures Keys(pairs + [p]) == Keys(pairs) + (if p.0 in Keys(pairs) then [] else [p.0])
  {
    var ps := pairs + [p];
    assert Firsts(ps)[..|ps| - 1] == Firsts(pairs);
  }

  lemma ValuesAppend<K, V>(pairs: seq<(K, V)>, p: (K, V), k: K)
    ensures Values(pairs + [p], k) == Values(pairs, k) + (if p.0 == k then [p.1] else [])
  {
    assert (pairs + [p])[..|pairs|] == pairs;
  }

  /** `keys` and `groups` are the dictionary filled from `pairs`: its keys in insertion order, and
      under each key its list. */
  ghost predicate Grouped<K, V>(pairs: seq<(K, V)>, keys: seq<K>, groups: map<K, seq<V>>) {
    && keys == Keys(pairs)
    && (forall k | k in keys :: k in groups)
    && (forall k | k in groups :: k in keys && groups[k] == Values(pairs, k))
  }

  /** The dictionary after one more `append`. */
  lemma GroupStep<K, V>(pairs: seq<(K, V)>, p: (K, V), keys: seq<K>, groups: map<K, seq<V>>)
    requires keys == Keys(pairs)
    requires forall k :: k in groups <==> k in keys
    requires forall k | k in groups :: groups[k] == Values(pairs, k)
    ensures var groups' := groups[p.0 := if p.0 in groups then groups[p.0] + [p.1] else [p.1]];
      && Keys(pairs + [p]) == keys + (if p.0 in groups then [] else [p.0])
      && (forall k :: k in groups' <==> k in Keys(pairs + [p]))
      && (forall k | k in groups' :: groups'[k] == Values(pairs + [p], k))
  {
    KeysAppend(pairs, p);
    forall k ensures Values(pairs + [p], k) == Values(pairs, k) + (if p.0 == k then [p.1] else []) {
      ValuesAppend(pairs, p, k);
    }
    if p.0 !in groups {
      KeysValues(pairs, p.0);
    }
  }

  /** `d[k].append(v)` on a `defaultdict(list)` whose key order is kept in `keys`. */
  method Append<K(==), V>(ghost pairs: seq<(K, V)>, keys0: seq<K>, groups0: map<K, seq<V>>, k: K, v: V)
    returns (keys: seq<K>, groups: map<K, seq<V>>)
    requires Grouped(pairs, keys0, groups0)
    ensures Grouped(pairs + [(k, v)], keys, groups)
  {
    GroupStep(pairs, (k, v), keys0, groups0);
    if k in groups0 {
      keys, groups := keys0, groups0[k := groups0[k] + [v]];
    } else {
      keys, groups := keys0 + [k], groups0[k := [v]];
    }
  }

  /** Builds the dictionary in one pass over the pairs. */
  method GroupBy<K(==), V>(pairs: seq<(K, V)>) returns (keys: seq<K>, groups: map<K, seq<V>>)
    ensures keys == Keys(pairs)
    ensures forall k :: k in groups <==> k in keys
    ensures forall k | k in groups :: groups[k] == Values(pairs, k)
  {
    assert [] + pairs == pairs;
    keys, groups := GroupMore([], pairs, [], map[]);
  }

  // ---------------------------------------------------------------------------------------------
  // `for a in items: for k in keys_of(a): d[k].append(value_of(a))`

  /** The (key, value) pairs one item contributes: one per key, all with the item's value. */
  function PairsWith<A, K, V>(keysOf: A -> seq<K>, valueOf: A -> V): A -> seq<(K, V)> {
    a => Map(keysOf(a), PairWith(valueOf(a)))
  }

  function PairWith<K, V>(v: V): K -> (K, V) {
    k => (k, v)
  }

  lemma PairsWithMember<A, K, V>(keysOf: A -> seq<K>, valueOf: A -> V, a: A, p: (K, V))
    ensures p in PairsWith(keysOf, valueOf)(a) <==> p.0 in keysOf(a) && p.1 == valueOf(a)
  {
    var ps := PairsWith(keysOf, valueOf)(a);
    if p.0 in keysOf(a) && p.1 == valueOf(a) {
      var i :| 0 <= i < |keysOf(a)| && keysOf(a)[i] == p.0;
      assert ps[i] == p;
    }
  }

  /** A key is grouped iff some item lists it, and a value sits under a key iff some item with that
      value lists the key. */
  lemma GroupedSpec<A, K, V>(items: seq<A>, keysOf: A -> seq<K>, valueOf: A -> V, k: K, v: V)
    ensures k in Keys(FlatMap(items, PairsWith(keysOf, valueOf))) <==> exists a :: a in items && k in keysOf(a)
    ensures v in Values(FlatMap(items, PairsWith(keysOf, valueOf)), k) <==>
      exists a :: a in items && k in keysOf(a) && v == valueOf(a)
  {
    var pairs := FlatMap(items, PairsWith(keysOf, valueOf));
    FlatMapMember(items, PairsWith(keysOf, valueOf), (k, v));
    forall a ensures (k, v) in PairsWith(keysOf, valueOf)(a) <==> k in keysOf(a) && v == valueOf(a) {
      PairsWithMember(keysOf, valueOf, a, (k, v));
    }
    if k in Keys(pairs) {
      var p :| p in pairs && p.0 == k;
      FlatMapMember(items, PairsWith(keysOf, valueOf), p);
      var a :| a in items && p in PairsWith(keysOf, valueOf)(a);
      PairsWithMember(keysOf, valueOf, a, p);
    }
    if exists a :: a in items && k in keysOf(a) {
      var a :| a in items && k in keysOf(a);
      PairsWithMember(keysOf, valueOf, a, (k, valueOf(a)));
      FlatMapMember(items, PairsWith(keysOf, valueOf), (k, valueOf(a)));
    }
  }

  lemma SnocPrefix<T>(a: seq<T>, b: seq<T>, j: nat)
    requires j < |b|
    ensures a + b[..j + 1] == (a + b[..j]) + [b[j]]
  {
    assert b[..j + 1] == b[..j] + [b[j]];
  }

  /** Appends more pairs to a dictionary that already holds `done`. */
  method GroupMore<K(==), V>(ghost done: seq<(K, V)>, more: seq<(K, V)>, keys0: seq<K>, groups0: map<K, seq<V>>)
    returns (keys: seq<K>, groups: map<K, seq<V>>)
    requires Grouped(done, keys0, groups0)
    ensures Grouped(done + more, keys, groups)
  {
    keys, groups := keys0, groups0;
    ghost var seen := done;
    for j := 0 to |more|
      invariant seen == done + more[..j]
      invariant Grouped(seen, keys, groups)
    {
      var p := more[j];
      SnocPrefix(done, more, j);
      keys, groups := Append(seen, keys, groups, p.0, p.1);
      seen := seen + [p];
    }
    assert more[..|more|] == more;
  }

  /** Fills the dictionary item by item, key by key. */
  method GroupNested<A, K(==), V>(items: seq<A>, keysOf: A -> seq<K>, valueOf: A -> V)
    returns (keys: seq<K>, groups: map<K, seq<V>>)
    ensures keys == Keys(FlatMap(items, PairsWith(keysOf, valueOf)))
    ensures forall k :: k in groups <==> k in keys
    ensures forall k | k in groups :: groups[k] == Values(FlatMap(items, PairsWith(keysOf, valueOf)), k)
  {
    keys, groups := [], map[];
    for i := 0 to |items|
      invariant keys == Keys(FlatMap(items[..i], PairsWith(keysOf, valueOf)))
      invariant forall k :: k in groups <==> k in keys
      invariant forall k | k in groups :: groups[k] == Values(FlatMap(items[..i], PairsWith(keysOf, valueOf)), k)
    {
      FlatMapStep(items, i, PairsWith(keysOf, valueOf));
      keys, groups := GroupMore(FlatMap(items[..i], PairsWith(keysOf, valueOf)), PairsWith(keysOf, valueOf)(items[i]), keys, groups);
    }
    assert items[..|items|] == items;
  }
}
