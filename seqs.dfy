/** Sequence helpers: distinctness, order-preserving de-duplication, filtering and flat-mapping.
    Every recursive definition peels the LAST element, so that a loop that walks a sequence from
    the front keeps `acc == F(s[..i])` as its invariant. */
module Seqs {
  import opened Wrappers

  /** No element occurs twice. */
  predicate Distinct<T(==)>(s: seq<T>) {
    forall i, j :: 0 <= i < j < |s| ==> s[i] != s[j]
  }

  /** The elements of `s` in order of first occurrence, each once (the key order of a Python dict
      filled from `s`, or of a list de-duplicated by `if x not in acc: acc.append(x)`). */
  function Dedup<T(==)>(s: seq<T>): (r: seq<T>)
    ensures Distinct(r)
    ensures forall x | x in r :: x in s
    ensures forall x | x in s :: x in r
    ensures |r| <= |s|
  {
    if s == [] then []
    else
      var p := Dedup(s[..|s| - 1]);
      if s[|s| - 1] in p then p else p + [s[|s| - 1]]
  }

  /** De-duplicating a sequence that already has no repeats changes nothing. */
  lemma {:induction false} DedupOfDistinct<T>(s: seq<T>)
    requires Distinct(s)
    ensures Dedup(s) == s
  {
    if s != [] {
      var q := s[..|s| - 1];
      assert Distinct(q);
      DedupOfDistinct(q);
      assert s[|s| - 1] !in q;
      assert q + [s[|s| - 1]] == s;
    }
  }

  /** One more element: it is kept only if it is new (`if x not in acc: acc.append(x)`, or a set's
      `add` when the set is iterated in insertion order). */
  lemma DedupSnoc<T>(s: seq<T>, x: T)
    ensures Dedup(s + [x]) == if x in Dedup(s) then Dedup(s) else Dedup(s) + [x]
  {
    assert (s + [x])[..|s|] == s;
  }

  /** A loop that records each new element satisfying `p` as a dictionary key. */
  lemma DedupFilterStep<T>(s: seq<T>, i: nat, p: T -> bool)
    requires i < |s|
    ensures var seen := Dedup(Filter(s[..i], p));
      Dedup(Filter(s[..i + 1], p)) == if p(s[i]) && s[i] !in seen then seen + [s[i]] else seen
  {
    FilterStep(s, i, p);
    var f := Filter(s[..i], p);
    if p(s[i]) {
      assert Filter(s[..i + 1], p) == f + [s[i]];
      DedupSnoc(f, s[i]);
    } else {
      assert Filter(s[..i + 1], p) == f;
    }
  }

  /** De-duplicating a sequence of one repeated value leaves at most that value. */
  lemma {:induction false} DedupConstant<T>(s: seq<T>, m: T)
    requires forall x | x in s :: x == m
    ensures Dedup(s) == [] || Dedup(s) == [m]
  {
    if s != [] {
      var q := s[..|s| - 1];
      assert forall x | x in q :: x in s;
      DedupConstant(q, m);
      assert s[|s| - 1] in s;
    }
  }

  /** The elements of `s` that satisfy `p`, in order (a Python list comprehension with `if`). */
  function Filter<T>(s: seq<T>, p: T -> bool): (r: seq<T>)
  {
    if s == [] then []
    else Filter(s[..|s| - 1], p) + (if p(s[|s| - 1]) then [s[|s| - 1]] else [])
  }

  /** Filtering keeps exactly the elements that satisfy `p`. */
  lemma {:induction false} FilterSpec<T>(s: seq<T>, p: T -> bool)
    ensures |Filter(s, p)| <= |s|
    ensures forall x | x in Filter(s, p) :: x in s && p(x)
    ensures forall x | x in s && p(x) :: x in Filter(s, p)
  {
    if s != [] { FilterSpec(s[..|s| - 1], p); }
  }

  /** The complement of a test. */
  function Not<T>(p: T -> bool): T -> bool {
    x => !p(x)
  }

  /** Filtering by a test and by its complement splits the sequence: every element lands in
      exactly one of the two parts. */
  lemma {:induction false} FilterPartition<T>(s: seq<T>, p: T -> bool)
    ensures |Filter(s, p)| + |Filter(s, Not(p))| == |s|
  {
    if s != [] { FilterPartition(s[..|s| - 1], p); }
  }

  /** Filtering keeps everything when every element passes. */
  lemma {:induction false} FilterAll<T>(s: seq<T>, p: T -> bool)
    requires forall i :: 0 <= i < |s| ==> p(s[i])
    ensures Filter(s, p) == s
  {
    if s != [] { FilterAll(s[..|s| - 1], p); }
  }

  /** Filtering keeps nothing when no element passes. */
  lemma {:induction false} FilterNone<T>(s: seq<T>, p: T -> bool)
    requires forall i :: 0 <= i < |s| ==> !p(s[i])
    ensures Filter(s, p) == []
  {
    if s != [] { FilterNone(s[..|s| - 1], p); }
  }

  /** A loop over `s` that has seen `s[..i]` and now looks at `s[i]`. */
  lemma FilterStep<T>(s: seq<T>, i: nat, p: T -> bool)
    requires i < |s|
    ensures Filter(s[..i + 1], p) == Filter(s[..i], p) + (if p(s[i]) then [s[i]] else [])
  {
    assert s[..i + 1][..i] == s[..i];
  }

  /** Filtering a sequence without repeats gives a sequence without repeats. */
  lemma {:induction false} FilterDistinct<T>(s: seq<T>, p: T -> bool)
    requires Distinct(s)
    ensures Distinct(Filter(s, p))
  {
    if s != [] {
      var q := s[..|s| - 1];
      assert Distinct(q);
      FilterDistinct(q, p);
      FilterSpec(q, p);
      assert s[|s| - 1] !in Filter(q, p);
    }
  }

  /** Filtering distributes over concatenation. */
  lemma {:induction false} FilterAppend<T>(a: seq<T>, b: seq<T>, p: T -> bool)
    ensures Filter(a + b, p) == Filter(a, p) + Filter(b, p)
  {
    if b != [] {
      var b' := b[..|b| - 1];
      assert (a + b)[..|a + b| - 1] == a + b';
      FilterAppend(a, b', p);
    } else {
      assert a + b == a;
    }
  }

  /** Concatenation of `f(x)` for every `x` of `s`, in order (nested `for` loops that append). */
  function FlatMap<A, B>(s: seq<A>, f: A -> seq<B>): (r: seq<B>)
  {
    if s == [] then [] else FlatMap(s[..|s| - 1], f) + f(s[|s| - 1])
  }

  /** An element of a flat-map comes from some element of the input, and every output of every
      input element is present. */
  lemma {:induction false} FlatMapMember<A, B>(s: seq<A>, f: A -> seq<B>, y: B)
    ensures y in FlatMap(s, f) <==> exists x :: x in s && y in f(x)
  {
    if s != [] {
      var q := s[..|s| - 1];
      FlatMapMember(q, f, y);
      assert forall x :: x in s <==> x in q || x == s[|s| - 1];
    }
  }

  /** Nothing comes out when no element produces anything. */
  lemma {:induction false} FlatMapNil<A, B>(s: seq<A>, f: A -> seq<B>)
    requires forall x | x in s :: f(x) == []
    ensures FlatMap(s, f) == []
  {
    if s != [] {
      var q := s[..|s| - 1];
      assert forall x | x in q :: x in s;
      FlatMapNil(q, f);
      assert s[|s| - 1] in s;
    }
  }

  /** A loop over `s` that has seen `s[..i]` and now looks at `s[i]`. */
  lemma FlatMapStep<A, B>(s: seq<A>, i: nat, f: A -> seq<B>)
    requires i < |s|
    ensures FlatMap(s[..i + 1], f) == FlatMap(s[..i], f) + f(s[i])
  {
    assert s[..i + 1][..i] == s[..i];
  }

  /** One more element at the end. */
  lemma FlatMapSnoc<A, B>(s: seq<A>, x: A, f: A -> seq<B>)
    ensures FlatMap(s + [x], f) == FlatMap(s, f) + f(x)
  {
    assert (s + [x])[..|s|] == s;
  }

  /** Flat-mapping distributes over concatenation. */
  lemma {:induction false} FlatMapAppend<A, B>(a: seq<A>, b: seq<A>, f: A -> seq<B>)
    ensures FlatMap(a + b, f) == FlatMap(a, f) + FlatMap(b, f)
  {
    if b != [] {
      var b' := b[..|b| - 1];
      assert (a + b)[..|a + b| - 1] == a + b';
      FlatMapAppend(a, b', f);
    } else {
      assert a + b == a;
    }
  }

  /** The present results of `f` over `s`, in order (a loop that appends a finding when the
      per-element examination produces one). */
  function Collect<A, B>(s: seq<A>, f: A -> Option<B>): (r: seq<B>)
  {
    if s == [] then [] else Collect(s[..|s| - 1], f) + (if f(s[|s| - 1]).Some? then [f(s[|s| - 1]).value] else [])
  }

  /** The elements for which `f` produces something. */
  function Produces<A, B>(f: A -> Option<B>): A -> bool {
    x => f(x).Some?
  }

  /** A loop over `s` that has seen `s[..i]` and now looks at `s[i]`. */
  lemma CollectStep<A, B>(s: seq<A>, i: nat, f: A -> Option<B>)
    requires i < |s|
    ensures Collect(s[..i + 1], f) == Collect(s[..i], f) + (if f(s[i]).Some? then [f(s[i]).value] else [])
  {
    assert s[..i + 1][..i] == s[..i];
  }

  /** The collected results line up with the elements that produced them. */
  lemma {:induction false} CollectFilter<A, B>(s: seq<A>, f: A -> Option<B>)
    ensures |Collect(s, f)| == |Filter(s, Produces(f))|
    ensures forall i :: 0 <= i < |Collect(s, f)| ==> f(Filter(s, Produces(f))[i]) == Some(Collect(s, f)[i])
  {
    if s != [] {
      CollectFilter(s[..|s| - 1], f);
    }
  }

  /** A result is collected iff some element produces it. */
  lemma CollectMember<A, B>(s: seq<A>, f: A -> Option<B>, y: B)
    ensures y in Collect(s, f) <==> exists x :: x in s && f(x) == Some(y)
  {
    var kept := Filter(s, Produces(f));
    CollectFilter(s, f);
    FilterSpec(s, Produces(f));
    if y in Collect(s, f) {
      var i :| 0 <= i < |Collect(s, f)| && Collect(s, f)[i] == y;
      assert kept[i] in kept;
    }
    if exists x :: x in s && f(x) == Some(y) {
      var x :| x in s && f(x) == Some(y);
      assert x in kept;
      var i :| 0 <= i < |kept| && kept[i] == x;
      assert Collect(s, f)[i] == y;
    }
  }

  /** When each result names its element through `key`, an element is named by some result iff it
      produces one. */
  lemma CollectKeyMember<A, B>(s: seq<A>, f: A -> Option<B>, key: B -> A, a: A)
    requires forall x | x in s && f(x).Some? :: key(f(x).value) == x
    ensures (exists y :: y in Collect(s, f) && key(y) == a) <==> a in s && f(a).Some?
  {
    if exists y :: y in Collect(s, f) && key(y) == a {
      var y :| y in Collect(s, f) && key(y) == a;
      CollectMember(s, f, y);
    }
    if a in s && f(a).Some? {
      CollectMember(s, f, f(a).value);
    }
  }

  /** Results collected over distinct elements, each result naming its element through `key`, name
      distinct elements. */
  lemma CollectDistinctKeys<A, B>(s: seq<A>, f: A -> Option<B>, key: B -> A)
    requires Distinct(s)
    requires forall x | x in s && f(x).Some? :: key(f(x).value) == x
    ensures forall i, j :: 0 <= i < j < |Collect(s, f)| ==> key(Collect(s, f)[i]) != key(Collect(s, f)[j])
  {
    var kept := Filter(s, Produces(f));
    CollectFilter(s, f);
    FilterSpec(s, Produces(f));
    FilterDistinct(s, Produces(f));
    forall i | 0 <= i < |kept| ensures key(Collect(s, f)[i]) == kept[i] {
      assert kept[i] in s;
    }
  }

  /** Number of elements of `s` that satisfy `p`. */
  function CountIf<T>(s: seq<T>, p: T -> bool): (n: nat)
    ensures n <= |s|
  {
    FilterSpec(s, p);
    |Filter(s, p)|
  }

  /** `[f(x) for x in s]`. */
  function Map<A, B>(s: seq<A>, f: A -> B): (r: seq<B>)
    ensures |r| == |s|
    ensures forall i :: 0 <= i < |s| ==> r[i] == f(s[i])
  {
    seq(|s|, i requires 0 <= i < |s| => f(s[i]))
  }

  lemma MapMember<A, B>(s: seq<A>, f: A -> B, y: B)
    ensures y in Map(s, f) <==> exists x :: x in s && f(x) == y
  {
    if exists x :: x in s && f(x) == y {
      var x :| x in s && f(x) == y;
      var i :| 0 <= i < |s| && s[i] == x;
      assert Map(s, f)[i] == y;
    }
  }

  /** The elements of a sequence as a set (`set(s)`, or a set filled by `add` in a loop over `s`). */
  function Elems<T>(s: seq<T>): set<T> {
    set x | x in s
  }

  lemma ElemsAppend<T>(a: seq<T>, b: seq<T>)
    ensures Elems(a + b) == Elems(a) + Elems(b)
  {
  }

  /** The elements of a prefix, one element longer. */
  lemma ElemsStep<T>(s: seq<T>, i: nat)
    requires i < |s|
    ensures Elems(s[..i + 1]) == Elems(s[..i]) + {s[i]}
  {
    assert s[..i + 1] == s[..i] + [s[i]];
    ElemsAppend(s[..i], [s[i]]);
  }

  /** Appending a new element keeps a sequence free of repeats. */
  lemma DistinctSnoc<T>(s: seq<T>, x: T)
    requires Distinct(s) && x !in s
    ensures Distinct(s + [x])
  {
    assert forall i | 0 <= i < |s| :: (s + [x])[i] == s[i];
  }

  /** The first element and the rest. */
  lemma ElemsFront<T>(s: seq<T>)
    requires s != []
    ensures Elems(s) == {s[0]} + Elems(s[1..])
  {
    assert s == [s[0]] + s[1..];
    ElemsAppend([s[0]], s[1..]);
    assert Elems([s[0]]) == {s[0]};
  }

  /** Joining two repeat-free sequences with no common element gives a repeat-free sequence. */
  lemma DistinctAppend<T>(a: seq<T>, b: seq<T>)
    requires Distinct(a) && Distinct(b) && Elems(a) !! Elems(b)
    ensures Distinct(a + b)
  {
    forall i, j | 0 <= i < j < |a + b| ensures (a + b)[i] != (a + b)[j] {
      if j < |a| {
        assert (a + b)[i] == a[i] && (a + b)[j] == a[j];
      } else if i < |a| {
        assert (a + b)[i] == a[i] && a[i] in Elems(a);
        assert (a + b)[j] == b[j - |a|] && b[j - |a|] in Elems(b);
      } else {
        assert (a + b)[i] == b[i - |a|] && (a + b)[j] == b[j - |a|];
      }
    }
  }

  lemma MapAppend<A, B>(a: seq<A>, b: seq<A>, f: A -> B)
    ensures Map(a + b, f) == Map(a, f) + Map(b, f)
  {
  }

  /** Mapping there and back again. */
  lemma MapRoundTrip<A, B>(s: seq<A>, f: A -> B, g: B -> A)
    requires forall x | x in s :: g(f(x)) == x
    ensures Map(Map(s, f), g) == s
  {
  }

  /** The union of a sequence of sets. */
  function Union<T>(ss: seq<set<T>>): set<T> {
    if ss == [] then {} else Union(ss[..|ss| - 1]) + ss[|ss| - 1]
  }

  lemma {:induction false} UnionMember<T>(ss: seq<set<T>>, x: T)
    ensures x in Union(ss) <==> exists k :: 0 <= k < |ss| && x in ss[k]
  {
    if ss != [] {
      var q := ss[..|ss| - 1];
      UnionMember(q, x);
      assert forall k | 0 <= k < |q| :: q[k] == ss[k];
    }
  }

  lemma UnionStep<T>(ss: seq<set<T>>, i: nat)
    requires i < |ss|
    ensures Union(ss[..i + 1]) == Union(ss[..i]) + ss[i]
  {
    assert ss[..i + 1][..i] == ss[..i];
  }

  /** A set holding `x` has one member exactly when it is `{x}`. */
  lemma SingletonSet<T>(s: set<T>, x: T)
    requires x in s
    ensures |s| == 1 <==> s == {x}
  {
    if |s| == 1 {
      assert |s - {x}| == 0;
    }
  }

  /** One more element taken out of a set that is being listed. */
  lemma ListStep<T>(listed: seq<T>, rest: set<T>, all: set<T>, x: T)
    requires Elems(listed) + rest == all && Elems(listed) !! rest && Distinct(listed)
    requires x in rest
    ensures Elems(listed + [x]) + (rest - {x}) == all
    ensures Elems(listed + [x]) !! rest - {x}
    ensures Distinct(listed + [x])
  {
    ElemsAppend(listed, [x]);
    assert Elems([x]) == {x};
    DistinctSnoc(listed, x);
  }

  /** `list(s)`: the members of a set, each once, in the set's iteration order (any order). */
  method ListOf<T>(s: set<T>) returns (l: seq<T>)
    ensures Elems(l) == s && Distinct(l)
  {
    l := [];
    var rest := s;
    while rest != {}
      invariant Elems(l) + rest == s && Elems(l) !! rest && Distinct(l)
      decreases |rest|
    {
      var x :| x in rest;
      ListStep(l, rest, s, x);
      l := l + [x];
      rest := rest - {x};
    }
  }

  /** A sequence without repetitions has as many elements as its set. */
  lemma {:induction false} DistinctElems<T>(s: seq<T>)
    requires Distinct(s)
    ensures |Elems(s)| == |s|
  {
    if s != [] {
      var q := s[..|s| - 1];
      assert Distinct(q);
      DistinctElems(q);
      assert s == q + [s[|s| - 1]];
      ElemsAppend(q, [s[|s| - 1]]);
      assert Elems([s[|s| - 1]]) == {s[|s| - 1]};
      assert s[|s| - 1] !in Elems(q);
    }
  }

  /** Two different members make a sequence longer than one. */
  lemma TwoMembers<T>(s: seq<T>, x: T, y: T)
    requires x in s && y in s && x != y
    ensures |s| > 1
  {
  }

  /** A loop over `s` that has seen `s[..i]` and now looks at `s[i]`. */
  lemma MapStep<A, B>(s: seq<A>, i: nat, f: A -> B)
    requires i < |s|
    ensures Map(s[..i + 1], f) == Map(s[..i], f) + [f(s[i])]
  {
  }

  /** One more element at the end. */
  lemma MapSnoc<A, B>(s: seq<A>, x: A, f: A -> B)
    ensures Map(s + [x], f) == Map(s, f) + [f(x)]
  {
  }
}
