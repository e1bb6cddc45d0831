/** Python dictionaries of lists as the analyzers build them: `defaultdict(list)` or
    `defaultdict(set)` filled by appending a value unless it is already there. Keys and values are
    node strings; a dictionary iterates its keys in the order they were first touched. */
module Dicts {
  import opened Seqs


  /** A `defaultdict(list)` turned into a `dict`: the keys in the order they were first touched,
      and the list stored under each. */
  datatype ListDict = ListDict(keys: seq<string>, lists: map<string, seq<string>>)

  /** Every key once, the key list and the map agree, and no list holds a value twice. */
  predicate Valid(d: ListDict) {
    && Distinct(d.keys)
    && Elems(d.keys) == d.lists.Keys
    && forall k | k in d.lists :: Distinct(d.lists[k])
  }

  const Empty: ListDict := ListDict([], map[])

  /** `d.get(k, [])`. */
  function Get(d: ListDict, k: string): seq<string> {
    if k in d.lists then d.lists[k] else []
  }

  /** `if v not in d[k]: d[k].append(v)` on a `defaultdict(list)`: reading `d[k]` creates the key. */
  function AddTo(d: ListDict, k: string, v: string): (r: ListDict)
    ensures Valid(d) ==> Valid(r)
    ensures k in r.lists && v in Get(r, k)
  {
    var l := Get(d, k);
    if k in d.lists then
      ListDict(d.keys, d.lists[k := if v in l then l else l + [v]])
    else
      ListDict(d.keys + [k], d.lists[k := [v]])
  }

  /** Adding `v` under `k` adds it to that list only. */
  lemma AddToMember(d: ListDict, k: string, v: string, k': string, x: string)
    ensures x in Get(AddTo(d, k, v), k') <==> x in Get(d, k') || (k' == k && x == v)
  {
  }

  /** Touching `k` appends it to the keys when it is new. */
  lemma AddToKeys(d: ListDict, k: string, v: string)
    requires Valid(d)
    ensures AddTo(d, k, v).keys == Dedup(d.keys + [k])
  {
    DedupOfDistinct(d.keys);
    DedupSnoc(d.keys, k);
  }

  /** The dictionary after adding every (key, value) pair in order. */
  function AddAll(d: ListDict, pairs: seq<(string, string)>): ListDict {
    if pairs == [] then d
    else
      var p := pairs[|pairs| - 1];
      AddTo(AddAll(d, pairs[..|pairs| - 1]), p.0, p.1)
  }

  /** Adding two runs of pairs is adding the first, then the second. */
  lemma {:induction false} AddAllAppend(d: ListDict, a: seq<(string, string)>, b: seq<(string, string)>)
    ensures AddAll(d, a + b) == AddAll(AddAll(d, a), b)
  {
    if b != [] {
      var q := b[..|b| - 1];
      assert (a + b)[..|a + b| - 1] == a + q;
      assert (a + b)[|a + b| - 1] == b[|b| - 1];
      AddAllAppend(d, a, q);
    } else {
      assert a + b == a;
    }
  }

  /** Adding keeps the dictionary valid. */
  lemma {:induction false} AddAllValid(d: ListDict, pairs: seq<(string, string)>)
    requires Valid(d)
    ensures Valid(AddAll(d, pairs))
  {
    if pairs != [] {
      AddAllValid(d, pairs[..|pairs| - 1]);
    }
  }

  /** `x` is listed under `k` iff it was before or some pair adds it there; `k` is a key iff it was
      before or some pair has it as key. */
  lemma {:induction false} AddAllMember(d: ListDict, pairs: seq<(string, string)>, k: string, x: string)
    ensures x in Get(AddAll(d, pairs), k) <==> x in Get(d, k) || (k, x) in pairs
    ensures k in AddAll(d, pairs).lists <==> k in d.lists || exists v :: (k, v) in pairs
  {
    if pairs != [] {
      var q, p := pairs[..|pairs| - 1], pairs[|pairs| - 1];
      AddAllMember(d, q, k, x);
      AddToMember(AddAll(d, q), p.0, p.1, k, x);
      assert pairs == q + [p];
      if exists v :: (k, v) in pairs {
        var v :| (k, v) in pairs;
        if (k, v) != p {
          assert (k, v) in q;
        }
      }
    }
  }
}
