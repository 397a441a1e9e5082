/**
 * Python's `dict`: a finite map that remembers the order in which its keys were
 * first inserted. Assigning to a key already present replaces its value and keeps
 * its position; assigning to a new key appends it. The networkx node table, the
 * embedding cache, the function registry and the `to_dict` payloads are all dicts.
 */
module Dicts {

  datatype Dict<K(==), V> = Dict(keys: seq<K>, entries: map<K, V>)

  predicate Distinct<K(==)>(s: seq<K>) {
    forall i, j :: 0 <= i < j < |s| ==> s[i] != s[j]
  }

  /** The key order lists every key of the mapping exactly once. */
  predicate Valid<K(==), V>(d: Dict<K, V>) {
    && Distinct(d.keys)
    && (forall k :: k in d.entries ==> k in d.keys)
    && (forall i :: 0 <= i < |d.keys| ==> d.keys[i] in d.entries)
  }

  function Empty<K(==), V>(): (d: Dict<K, V>)
    ensures Valid(d) && d.keys == [] && d.entries == map[]
  {
    Dict([], map[])
  }

  /** `d[k] = v` */
  function Put<K(==), V>(d: Dict<K, V>, k: K, v: V): (r: Dict<K, V>)
    ensures Valid(d) ==> Valid(r)
    ensures k in r.entries && r.entries[k] == v
    ensures forall j :: j in d.entries && j != k ==> j in r.entries && r.entries[j] == d.entries[j]
    ensures forall j :: j in r.entries ==> j in d.entries || j == k
  {
    Dict(if k in d.entries then d.keys else d.keys + [k], d.entries[k := v])
  }

  /** `list(d.values())` */
  function Values<K(==), V>(d: Dict<K, V>): (vs: seq<V>)
    requires Valid(d)
    ensures |vs| == |d.keys|
    ensures forall i :: 0 <= i < |d.keys| ==> d.keys[i] in d.entries && vs[i] == d.entries[d.keys[i]]
  {
    seq(|d.keys|, i requires 0 <= i < |d.keys| => d.entries[d.keys[i]])
  }

  /** `d[k] = v` for each pair of `items` in turn. */
  function PutAll<K(==), V>(d: Dict<K, V>, items: seq<(K, V)>): Dict<K, V>
    decreases |items|
  {
    if items == [] then d else PutAll(Put(d, items[0].0, items[0].1), items[1..])
  }

  /** The key order after inserting `ids` in turn into a dict whose key order is `order`. */
  function AppendNew<K(==)>(order: seq<K>, ids: seq<K>): seq<K>
    decreases |ids|
  {
    if ids == [] then order
    else AppendNew(if ids[0] in order then order else order + [ids[0]], ids[1..])
  }

  function FirstOfEach<K(==), V>(items: seq<(K, V)>): (ks: seq<K>)
    ensures |ks| == |items| && forall i :: 0 <= i < |items| ==> ks[i] == items[i].0
  {
    seq(|items|, i requires 0 <= i < |items| => items[i].0)
  }

  /** The mapping after assigning each pair of `items` in turn, starting from `m`. */
  function Override<K(==), V>(m: map<K, V>, items: seq<(K, V)>): map<K, V>
    decreases |items|
  {
    if items == [] then m else Override(m[items[0].0 := items[0].1], items[1..])
  }

  /** Concatenation regroups freely; stated once so that the proofs elsewhere need not rediscover it. */
  lemma ConcatAssoc<T>(a: seq<T>, b: seq<T>, c: seq<T>)
    ensures a + b + c == a + (b + c)
  {
  }

  lemma DistinctConcat<K>(a: seq<K>, b: seq<K>)
    requires Distinct(a) && Distinct(b)
    requires forall x :: x in a ==> x !in b
    ensures Distinct(a + b)
  {
    var ab := a + b;
    forall i, j | 0 <= i < j < |ab|
      ensures ab[i] != ab[j]
    {
      if j < |a| {
        assert ab[i] == a[i] && ab[j] == a[j];
      } else if |a| <= i {
        assert ab[i] == b[i - |a|] && ab[j] == b[j - |a|];
      } else {
        assert ab[i] == a[i] && ab[j] == b[j - |a|];
        assert a[i] in a && b[j - |a|] in b;
      }
    }
  }

  lemma DistinctHead<K>(s: seq<K>)
    requires s != [] && Distinct(s)
    ensures s[0] !in s[1..] && Distinct(s[1..])
  {
    forall m | 0 <= m < |s[1..]|
      ensures s[1..][m] != s[0]
    {
      assert s[1..][m] == s[m + 1];
    }
    forall i, j | 0 <= i < j < |s[1..]|
      ensures s[1..][i] != s[1..][j]
    {
      assert s[1..][i] == s[i + 1] && s[1..][j] == s[j + 1];
    }
  }

  /** A dict has no keys in its order exactly when it maps nothing. */
  lemma EmptyIffNoKeys<K, V>(d: Dict<K, V>)
    requires Valid(d)
    ensures d.keys == [] <==> d.entries == map[]
  {
    if d.keys != [] {
      assert d.keys[0] in d.entries;
    }
  }

  /** A key is in the key order exactly when it is mapped. */
  lemma KeysMembership<K, V>(d: Dict<K, V>)
    requires Valid(d)
    ensures forall k :: k in d.keys <==> k in d.entries
  {
  }

  lemma {:induction false} AppendNewShape<K>(order: seq<K>, ids: seq<K>)
    requires Distinct(order)
    ensures Distinct(AppendNew(order, ids))
    ensures order <= AppendNew(order, ids)
    ensures forall x :: x in AppendNew(order, ids) <==> x in order || x in ids
    decreases |ids|
  {
    if ids != [] {
      var next := if ids[0] in order then order else order + [ids[0]];
      AppendNewShape(next, ids[1..]);
      assert forall x :: x in ids <==> x == ids[0] || x in ids[1..];
    }
  }

  lemma {:induction false} AppendNewConcat<K>(order: seq<K>, a: seq<K>, b: seq<K>)
    ensures AppendNew(AppendNew(order, a), b) == AppendNew(order, a + b)
    decreases |a|
  {
    if a == [] {
      assert a + b == b;
    } else {
      var next := if a[0] in order then order else order + [a[0]];
      assert (a + b)[0] == a[0] && (a + b)[1..] == a[1..] + b;
      AppendNewConcat(next, a[1..], b);
    }
  }

  /** Inserting keys that are all present already changes nothing. */
  lemma {:induction false} AppendNewAbsorbs<K>(order: seq<K>, ids: seq<K>)
    requires forall x :: x in ids ==> x in order
    ensures AppendNew(order, ids) == order
    decreases |ids|
  {
    if ids != [] {
      assert ids[0] in ids;
      AppendNewAbsorbs(order, ids[1..]);
    }
  }

  /** Inserting distinct keys that are all new appends them in their order. */
  lemma {:induction false} AppendNewFresh<K>(order: seq<K>, ids: seq<K>)
    requires Distinct(ids)
    requires forall x :: x in ids ==> x !in order
    ensures AppendNew(order, ids) == order + ids
    decreases |ids|
  {
    if ids != [] {
      assert ids[0] in ids;
      assert forall x :: x in ids[1..] ==> x in ids && x != ids[0];
      AppendNewFresh(order + [ids[0]], ids[1..]);
      assert order + [ids[0]] + ids[1..] == order + ids;
    }
  }

  lemma {:induction false} PutAllShape<K, V>(d: Dict<K, V>, items: seq<(K, V)>)
    requires Valid(d)
    ensures Valid(PutAll(d, items))
    ensures PutAll(d, items).keys == AppendNew(d.keys, FirstOfEach(items))
    ensures PutAll(d, items).entries == Override(d.entries, items)
    decreases |items|
  {
    if items != [] {
      var k, v := items[0].0, items[0].1;
      var next := Put(d, k, v);
      assert next.keys == if k in d.keys then d.keys else d.keys + [k];
      PutAllShape(next, items[1..]);
      assert FirstOfEach(items)[0] == k;
      assert FirstOfEach(items)[1..] == FirstOfEach(items[1..]);
    }
  }

  /** Assigning a sequence of pairs is the same as overlaying the map those pairs build. */
  lemma {:induction false} OverrideIsUnion<K, V>(m: map<K, V>, items: seq<(K, V)>)
    ensures Override(m, items) == m + Override(map[], items)
    decreases |items|
  {
    if items != [] {
      var k, v := items[0].0, items[0].1;
      OverrideIsUnion(m[k := v], items[1..]);
      OverrideIsUnion(map[k := v], items[1..]);
      var rest := Override(map[], items[1..]);
      assert m[k := v] + rest == m + (map[k := v] + rest);
    }
  }

  lemma PutAllKeysAgain<K, V>(d: Dict<K, V>, items: seq<(K, V)>)
    requires Valid(d)
    ensures Valid(PutAll(d, items))
    ensures PutAll(PutAll(d, items), items).keys == PutAll(d, items).keys
  {
    var once := PutAll(d, items);
    PutAllShape(d, items);
    PutAllShape(once, items);
    AppendNewShape(d.keys, FirstOfEach(items));
    AppendNewAbsorbs(once.keys, FirstOfEach(items));
  }

  lemma PutAllEntriesAgain<K, V>(d: Dict<K, V>, items: seq<(K, V)>)
    requires Valid(d)
    ensures PutAll(PutAll(d, items), items).entries == PutAll(d, items).entries
  {
    var once := PutAll(d, items);
    PutAllShape(d, items);
    PutAllShape(once, items);
    OverrideIsUnion(d.entries, items);
    OverrideIsUnion(once.entries, items);
    MapUnionAgain(d.entries, Override(map[], items));
  }

  lemma MapUnionAgain<K, V>(m: map<K, V>, u: map<K, V>)
    ensures (m + u) + u == m + u
  {
  }

  /** Assigning the same pairs twice leaves the dict as assigning them once. */
  lemma PutAllIdempotent<K, V>(d: Dict<K, V>, items: seq<(K, V)>)
    requires Valid(d)
    ensures PutAll(PutAll(d, items), items) == PutAll(d, items)
  {
    PutAllKeysAgain(d, items);
    PutAllEntriesAgain(d, items);
  }

  /** Appending a new key appends its value to `values()`. */
  lemma ValuesPutNew<K, V>(d: Dict<K, V>, k: K, v: V)
    requires Valid(d) && k !in d.entries
    ensures Values(Put(d, k, v)) == Values(d) + [v]
  {
    var r := Put(d, k, v);
    assert Valid(r);
    assert r.keys == d.keys + [k];
    assert forall i :: 0 <= i < |d.keys| ==> d.keys[i] != k;
  }

  /** The pairs `(k, f(k))` for the keys `ks`, in order. */
  function Pairs<K(==), V>(ks: seq<K>, f: K -> V): (items: seq<(K, V)>)
    ensures |items| == |ks| && forall i :: 0 <= i < |ks| ==> items[i] == (ks[i], f(ks[i]))
  {
    seq(|ks|, i requires 0 <= i < |ks| => (ks[i], f(ks[i])))
  }

  /** One step of assigning the pairs `(k, f(k))` from position `i` on. */
  lemma PutAllPairsStep<K, V>(d: Dict<K, V>, ks: seq<K>, f: K -> V, i: nat)
    requires i < |ks|
    ensures PutAll(d, Pairs(ks[i..], f)) == PutAll(Put(d, ks[i], f(ks[i])), Pairs(ks[i + 1..], f))
  {
    var p := Pairs(ks[i..], f);
    assert p[0] == (ks[i], f(ks[i]));
    assert p[1..] == Pairs(ks[i + 1..], f);
  }

  lemma OverridePairsStep<K, V>(m: map<K, V>, ks: seq<K>, f: K -> V)
    requires ks != []
    ensures Override(m, Pairs(ks, f)) == Override(m[ks[0] := f(ks[0])], Pairs(ks[1..], f))
  {
    var p := Pairs(ks, f);
    assert p[0] == (ks[0], f(ks[0]));
    assert p[1..] == Pairs(ks[1..], f);
  }

  /** Assigning `m[k] = f(k)` for each key of `ks` adds exactly the keys of `ks`. */
  lemma {:induction false} OverridePairsDomain<K, V>(m: map<K, V>, ks: seq<K>, f: K -> V)
    ensures forall k :: k in Override(m, Pairs(ks, f)) <==> k in m || k in ks
    decreases |ks|
  {
    if ks != [] {
      OverridePairsStep(m, ks, f);
      OverridePairsDomain(m[ks[0] := f(ks[0])], ks[1..], f);
      assert forall k :: k in ks <==> k == ks[0] || k in ks[1..];
    }
  }

  /** ... and maps each of them to its value under `f`, leaving the other keys alone. */
  lemma {:induction false} OverridePairsValues<K, V>(m: map<K, V>, ks: seq<K>, f: K -> V)
    ensures forall k :: k in ks ==> k in Override(m, Pairs(ks, f)) && Override(m, Pairs(ks, f))[k] == f(k)
    ensures forall k :: k in m && k !in ks ==> k in Override(m, Pairs(ks, f)) && Override(m, Pairs(ks, f))[k] == m[k]
    decreases |ks|
  {
    OverridePairsDomain(m, ks, f);
    if ks != [] {
      OverridePairsStep(m, ks, f);
      OverridePairsValues(m[ks[0] := f(ks[0])], ks[1..], f);
      assert forall k :: k in ks <==> k == ks[0] || k in ks[1..];
    }
  }

  /**
   * Assigning `d[k] = f(k)` for each key of `ks` appends the new keys in order,
   * maps every key of `ks` to its value under `f` and leaves the other keys alone.
   */
  lemma PutAllPairs<K, V>(d: Dict<K, V>, ks: seq<K>, f: K -> V)
    requires Valid(d)
    ensures var r := PutAll(d, Pairs(ks, f));
      && Valid(r)
      && r.keys == AppendNew(d.keys, ks)
      && (forall k :: k in r.entries <==> k in d.entries || k in ks)
      && (forall k :: k in ks ==> r.entries[k] == f(k))
      && (forall k :: k in d.entries && k !in ks ==> r.entries[k] == d.entries[k])
  {
    PutAllShape(d, Pairs(ks, f));
    assert FirstOfEach(Pairs(ks, f)) == ks;
    OverridePairsDomain(d.entries, ks, f);
    OverridePairsValues(d.entries, ks, f);
  }
}
