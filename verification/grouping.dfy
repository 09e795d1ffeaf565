/**
  Grouping a list of (key, value) pairs into an insertion-ordered dictionary of
  lists: the Python idiom

      if key not in groups: groups[key] = []
      groups[key].append(value)

  used by both classifiers' `fit` and by the hierarchical mixing strategy.
  A dictionary is a sequence of (key, list) entries; Python dictionaries keep
  keys in the order they were first inserted.
*/
module Grouping {
  import opened Outcomes

  type Groups<K, V> = seq<(K, seq<V>)>

  /** The first components, in order: a dictionary's keys, or the keys of a list of pairs. */
  function Keys<K, V>(xs: seq<(K, V)>): (ks: seq<K>)
    ensures |ks| == |xs|
    ensures forall i | 0 <= i < |xs| :: ks[i] == xs[i].0
  {
    seq(|xs|, i requires 0 <= i < |xs| => xs[i].0)
  }

  function Seconds<K, V>(xs: seq<(K, V)>): (vs: seq<V>)
    ensures |vs| == |xs|
    ensures forall i | 0 <= i < |xs| :: vs[i] == xs[i].1
  {
    seq(|xs|, i requires 0 <= i < |xs| => xs[i].1)
  }

  ghost predicate Distinct<K>(ks: seq<K>) {
    forall i, j | 0 <= i < j < |ks| :: ks[i] != ks[j]
  }

  /** Position of the first occurrence of `k`. */
  function IndexOf<K(==)>(ks: seq<K>, k: K): (i: nat)
    requires k in ks
    ensures i < |ks| && ks[i] == k
    ensures k !in ks[..i]
  {
    if ks[0] == k then 0 else 1 + IndexOf(ks[1..], k)
  }

  /** The values of all entries, list after list. */
  function Flatten<K, V>(g: Groups<K, V>): seq<V> {
    if g == [] then [] else g[0].1 + Flatten(g[1..])
  }

  /** One step of the idiom: append `v` to `k`'s list, opening a new list at the end if `k` is new. */
  function Add<K(==), V>(g: Groups<K, V>, k: K, v: V): (r: Groups<K, V>)
    ensures Keys(r) == if k in Keys(g) then Keys(g) else Keys(g) + [k]
  {
    if k in Keys(g) then
      var j := IndexOf(Keys(g), k);
      g[j := (k, g[j].1 + [v])]
    else
      g + [(k, [v])]
  }

  /** `groups.get(k)`. */
  function Lookup<K(==), V>(g: Groups<K, V>, k: K): (r: Option<seq<V>>)
    ensures r.Some? <==> k in Keys(g)
  {
    if k in Keys(g) then Some(g[IndexOf(Keys(g), k)].1) else None
  }

  /** `groups[k] = vs`: an existing key keeps its position, a new key goes last. */
  function Put<K(==), V>(g: Groups<K, V>, k: K, vs: seq<V>): (r: Groups<K, V>)
    ensures Keys(r) == if k in Keys(g) then Keys(g) else Keys(g) + [k]
    ensures Lookup(r, k) == Some(vs)
    ensures forall k' | k' in Keys(g) && k' != k :: Lookup(r, k') == Lookup(g, k')
  {
    if k in Keys(g) then
      var j := IndexOf(Keys(g), k);
      var r := g[j := (k, vs)];
      assert Keys(r) == Keys(g);
      r
    else
      var r := g + [(k, vs)];
      assert Keys(r)[..|g|] == Keys(g);
      forall k' | k' in Keys(g) ensures IndexOf(Keys(r), k') == IndexOf(Keys(g), k') {
        IndexOfPrefix(Keys(r), |g|, k');
      }
      r
  }

  /** `for k, vs in groups: d[k] = f(vs)`, group after group. */
  function PutEach<K(==), V, W>(d: Groups<K, W>, groups: Groups<K, V>, f: seq<V> -> seq<W>): Groups<K, W>
    decreases |groups|
  {
    if groups == [] then d else PutEach(Put(d, groups[0].0, f(groups[0].1)), groups[1..], f)
  }

  /** Each key of `groups` gets `f` of its values; every other key keeps its entry. */
  lemma {:induction false} PutEachLookup<K, V, W>(d: Groups<K, W>, groups: Groups<K, V>, f: seq<V> -> seq<W>, k: K)
    requires Distinct(Keys(groups))
    ensures k in Keys(groups) ==> Lookup(PutEach(d, groups, f), k) == Some(f(groups[IndexOf(Keys(groups), k)].1))
    ensures k !in Keys(groups) ==> Lookup(PutEach(d, groups, f), k) == Lookup(d, k)
    decreases |groups|
  {
    if groups != [] {
      var d' := Put(d, groups[0].0, f(groups[0].1));
      assert Keys(groups[1..]) == Keys(groups)[1..];
      PutEachLookup(d', groups[1..], f, k);
      if k in Keys(groups[1..]) {
        var j := IndexOf(Keys(groups[1..]), k);
        assert Keys(groups)[j + 1] == k;
        assert Keys(groups)[0] != k;
        assert IndexOf(Keys(groups), k) == j + 1;
      } else if k == groups[0].0 {
        assert Keys(groups)[0] == k;
      }
    }
  }

  /** Putting never disturbs the keys already present, and appends new ones. */
  lemma {:induction false} PutEachKeys<K, V, W>(d: Groups<K, W>, groups: Groups<K, V>, f: seq<V> -> seq<W>)
    requires Distinct(Keys(d))
    ensures Distinct(Keys(PutEach(d, groups, f)))
    ensures Keys(d) <= Keys(PutEach(d, groups, f))
    decreases |groups|
  {
    if groups != [] {
      PutEachKeys(Put(d, groups[0].0, f(groups[0].1)), groups[1..], f);
    }
  }

  /**
    The keys of `ks` that are not yet in `existing`, in order, each once: the
    keys a dictionary holding `existing` gains when `ks` are stored into it.
  */
  function NewKeys<K(==)>(existing: seq<K>, ks: seq<K>): (r: seq<K>)
    ensures forall k | k in r :: k in ks && k !in existing
    ensures forall k | k in ks && k !in existing :: k in r
    decreases |ks|
  {
    if ks == [] then []
    else if ks[0] in existing then NewKeys(existing, ks[1..])
    else [ks[0]] + NewKeys(existing + [ks[0]], ks[1..])
  }

  /** Storing groups keeps the old keys in place and appends each new key where it first occurs. */
  lemma {:induction false} PutEachKeyOrder<K, V, W>(d: Groups<K, W>, groups: Groups<K, V>, f: seq<V> -> seq<W>)
    ensures Keys(PutEach(d, groups, f)) == Keys(d) + NewKeys(Keys(d), Keys(groups))
    decreases |groups|
  {
    if groups != [] {
      var d' := Put(d, groups[0].0, f(groups[0].1));
      assert Keys(groups) == [groups[0].0] + Keys(groups[1..]);
      PutEachKeyOrder(d', groups[1..], f);
      if groups[0].0 in Keys(d) {
        NewKeysKnown(Keys(d), groups[0].0, Keys(groups[1..]));
      } else {
        NewKeysStep(Keys(d), groups[0].0, Keys(groups[1..]));
      }
    }
  }

  /** One step of `PutEachKeyOrder` for a new key `k`: it is appended, then `rest` is stored. */
  lemma NewKeysStep<K>(existing: seq<K>, k: K, rest: seq<K>)
    requires k !in existing
    ensures existing + [k] + NewKeys(existing + [k], rest) == existing + NewKeys(existing, [k] + rest)
  {
    var ks := [k] + rest;
    assert ks[0] == k && ks[1..] == rest;
    var tail := NewKeys(existing + [k], rest);
    assert NewKeys(existing, ks) == [k] + tail;
    assert existing + [k] + tail == existing + ([k] + tail);
  }

  /** One step of `PutEachKeyOrder` for a key already present: it adds nothing. */
  lemma NewKeysKnown<K>(existing: seq<K>, k: K, rest: seq<K>)
    requires k in existing
    ensures NewKeys(existing, [k] + rest) == NewKeys(existing, rest)
  {
    assert ([k] + rest)[1..] == rest;
  }

  /** The idiom applied to every pair, in order. */
  function GroupBy<K(==), V>(xs: seq<(K, V)>): Groups<K, V> {
    if xs == [] then [] else
      var n := |xs| - 1;
      Add(GroupBy(xs[..n]), xs[n].0, xs[n].1)
  }

  /** Reference definitions: keys by first appearance, and the values of one key in order. */
  function FirstSeen<K(==)>(ks: seq<K>): (r: seq<K>)
    ensures forall k | k in ks :: k in r
    ensures forall k | k in r :: k in ks
    ensures Distinct(r)
    ensures forall i, j | 0 <= i < j < |r| :: IndexOf(ks, r[i]) < IndexOf(ks, r[j])
  {
    if ks == [] then [] else
      var n := |ks| - 1;
      var p := FirstSeen(ks[..n]);
      forall k | k in ks[..n] ensures IndexOf(ks, k) == IndexOf(ks[..n], k) {
        IndexOfPrefix(ks, n, k);
      }
      if ks[n] in p then p else
        assert IndexOf(ks, ks[n]) == n;
        p + [ks[n]]
  }

  lemma {:induction false} IndexOfPrefix<K>(ks: seq<K>, n: nat, k: K)
    requires n <= |ks| && k in ks[..n]
    ensures k in ks
    ensures IndexOf(ks, k) == IndexOf(ks[..n], k)
  {
    if ks[0] != k {
      assert ks[1..][..n - 1] == ks[..n][1..];
      IndexOfPrefix(ks[1..], n - 1, k);
    }
  }

  function Select<K(==), V>(xs: seq<(K, V)>, k: K): (vs: seq<V>)
    ensures |vs| <= |xs|
    ensures forall v | v in vs :: (k, v) in xs
    ensures forall p | p in xs && p.0 == k :: p.1 in vs
  {
    if xs == [] then [] else
      var n := |xs| - 1;
      assert xs == xs[..n] + [xs[n]];
      Select(xs[..n], k) + (if xs[n].0 == k then [xs[n].1] else [])
  }

  /**
    The grouping equals the reference: one entry per distinct key, in order of
    first appearance, holding exactly that key's values in input order.
  */
  lemma GroupByIsReference<K, V>(xs: seq<(K, V)>)
    ensures Keys(GroupBy(xs)) == FirstSeen(Keys(xs))
    ensures forall i | 0 <= i < |GroupBy(xs)| :: GroupBy(xs)[i].1 == Select(xs, GroupBy(xs)[i].0)
  {
    GroupByKeys(xs);
    GroupByValues(xs);
  }

  lemma {:induction false} GroupByKeys<K, V>(xs: seq<(K, V)>)
    ensures Keys(GroupBy(xs)) == FirstSeen(Keys(xs))
  {
    if xs != [] {
      var n := |xs| - 1;
      GroupByKeys(xs[..n]);
      assert Keys(xs)[..n] == Keys(xs[..n]);
      assert Keys(xs)[n] == xs[n].0;
    }
  }

  lemma {:induction false} GroupByValues<K, V>(xs: seq<(K, V)>)
    ensures forall i | 0 <= i < |GroupBy(xs)| :: GroupBy(xs)[i].1 == Select(xs, GroupBy(xs)[i].0)
  {
    if xs != [] {
      var n := |xs| - 1;
      var ys := xs[..n];
      GroupByValues(ys);
      GroupByKeys(ys);
      assert Keys(ys) == Keys(xs)[..n];
      assert xs == ys + [(xs[n].0, xs[n].1)];
      AddValues(GroupBy(ys), ys, xs[n].0, xs[n].1);
    }
  }

  /** One step of `GroupByValues`: adding a pair keeps every list equal to its key's selection. */
  lemma AddValues<K, V>(g: Groups<K, V>, ys: seq<(K, V)>, k: K, v: V)
    requires Distinct(Keys(g))
    requires forall x | x in Keys(ys) :: x in Keys(g)
    requires forall i | 0 <= i < |g| :: g[i].1 == Select(ys, g[i].0)
    ensures forall i | 0 <= i < |Add(g, k, v)| :: Add(g, k, v)[i].1 == Select(ys + [(k, v)], Add(g, k, v)[i].0)
  {
    var xs := ys + [(k, v)];
    var r := Add(g, k, v);
    assert xs[..|ys|] == ys;
    if k in Keys(g) {
      var j := IndexOf(Keys(g), k);
      forall i | 0 <= i < |r| ensures r[i].1 == Select(xs, r[i].0) {
        if i != j {
          assert Keys(g)[i] != Keys(g)[j];
        }
      }
    } else {
      assert k !in Keys(ys);
      SelectAbsent(ys, k);
    }
  }

  lemma {:induction false} SelectAbsent<K, V>(xs: seq<(K, V)>, k: K)
    requires k !in Keys(xs)
    ensures Select(xs, k) == []
  {
    if xs != [] {
      var n := |xs| - 1;
      assert Keys(xs[..n]) == Keys(xs)[..n];
      assert xs[n].0 == Keys(xs)[n];
      SelectAbsent(xs[..n], k);
    }
  }

  /** The groups hold every value once: flattening them is a permutation of the values. */
  lemma {:induction false} GroupByPermutes<K, V>(xs: seq<(K, V)>)
    ensures multiset(Flatten(GroupBy(xs))) == multiset(Seconds(xs))
    ensures |Flatten(GroupBy(xs))| == |xs|
  {
    if xs != [] {
      var n := |xs| - 1;
      var g := GroupBy(xs[..n]);
      GroupByPermutes(xs[..n]);
      assert Seconds(xs) == Seconds(xs[..n]) + [xs[n].1];
      if xs[n].0 in Keys(g) {
        var j := IndexOf(Keys(g), xs[n].0);
        FlattenUpdate(g, j, [xs[n].1]);
      } else {
        FlattenSnoc(g, (xs[n].0, [xs[n].1]));
      }
    }
  }

  lemma {:induction false} FlattenUpdate<K, V>(g: Groups<K, V>, j: nat, s: seq<V>)
    requires j < |g|
    ensures multiset(Flatten(g[j := (g[j].0, g[j].1 + s)])) == multiset(Flatten(g)) + multiset(s)
    ensures |Flatten(g[j := (g[j].0, g[j].1 + s)])| == |Flatten(g)| + |s|
  {
    var h := g[j := (g[j].0, g[j].1 + s)];
    if j > 0 {
      assert h[1..] == g[1..][j - 1 := (g[j].0, g[j].1 + s)];
      FlattenUpdate(g[1..], j - 1, s);
    } else {
      assert h[1..] == g[1..];
    }
  }

  lemma {:induction false} FlattenSnoc<K, V>(g: Groups<K, V>, e: (K, seq<V>))
    ensures Flatten(g + [e]) == Flatten(g) + e.1
  {
    if g != [] {
      assert (g + [e])[1..] == g[1..] + [e];
      FlattenSnoc(g[1..], e);
    }
  }
}
