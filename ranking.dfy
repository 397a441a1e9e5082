/**
 * The ranking step of `Retriever.get_matching_node`: `sorted(scores.items(),
 * key=lambda x: x[1], reverse=True)` followed by the slice `[:top_n]`.
 * Python's sort is stable, also with `reverse=True`: items with equal scores
 * keep their order. Scores are modelled as reals; only their order matters.
 */
module Ranking {
  import opened Dicts

  /** Inserts `x` in front of the first item whose score is not above its own. */
  function Insert<K>(x: (K, real), t: seq<(K, real)>): (r: seq<(K, real)>)
    ensures multiset(r) == multiset(t) + multiset{x}
    decreases |t|
  {
    if t == [] || t[0].1 <= x.1 then [x] + t
    else
      assert t == [t[0]] + t[1..];
      [t[0]] + Insert(x, t[1..])
  }

  /** `sorted(items, key=lambda x: x[1], reverse=True)` */
  function SortDesc<K>(s: seq<(K, real)>): (r: seq<(K, real)>)
    ensures multiset(r) == multiset(s)
    decreases |s|
  {
    if s == [] then []
    else
      assert s == [s[0]] + s[1..];
      Insert(s[0], SortDesc(s[1..]))
  }

  predicate NonIncreasing<K>(s: seq<(K, real)>) {
    forall i, j :: 0 <= i < j < |s| ==> s[i].1 >= s[j].1
  }

  /** The items of `s` whose score is `v`, in order. */
  function WithScore<K>(s: seq<(K, real)>, v: real): seq<(K, real)>
    decreases |s|
  {
    if s == [] then [] else (if s[0].1 == v then [s[0]] else []) + WithScore(s[1..], v)
  }

  lemma {:induction false} InsertNonIncreasing<K>(x: (K, real), t: seq<(K, real)>)
    requires NonIncreasing(t)
    ensures NonIncreasing(Insert(x, t))
    decreases |t|
  {
    if t != [] && t[0].1 > x.1 {
      InsertNonIncreasing(x, t[1..]);
      var r := Insert(x, t);
      var rest := Insert(x, t[1..]);
      assert r == [t[0]] + rest;
      forall k | 0 <= k < |rest|
        ensures t[0].1 >= rest[k].1
      {
        assert rest[k] in multiset(rest);
        assert rest[k] in multiset(t[1..]) + multiset{x};
        if rest[k] != x {
          assert rest[k] in t[1..];
          var m :| 0 <= m < |t[1..]| && t[1..][m] == rest[k];
          assert t[m + 1] == rest[k];
        }
      }
    }
  }

  /** The sorted items are in non-increasing order of score. */
  lemma {:induction false} SortDescNonIncreasing<K>(s: seq<(K, real)>)
    ensures NonIncreasing(SortDesc(s))
    decreases |s|
  {
    if s != [] {
      SortDescNonIncreasing(s[1..]);
      InsertNonIncreasing(s[0], SortDesc(s[1..]));
    }
  }

  lemma WithScoreCons<K>(x: (K, real), t: seq<(K, real)>, v: real)
    ensures WithScore([x] + t, v) == (if x.1 == v then [x] else []) + WithScore(t, v)
  {
    assert ([x] + t)[1..] == t;
  }

  lemma NonIncreasingTail<K>(t: seq<(K, real)>)
    requires t != [] && NonIncreasing(t)
    ensures NonIncreasing(t[1..])
  {
    forall i, j | 0 <= i < j < |t[1..]|
      ensures t[1..][i].1 >= t[1..][j].1
    {
      assert t[1..][i] == t[i + 1] && t[1..][j] == t[j + 1];
    }
  }

  lemma {:induction false} InsertWithScore<K>(x: (K, real), t: seq<(K, real)>, v: real)
    requires NonIncreasing(t)
    ensures WithScore(Insert(x, t), v) == (if x.1 == v then [x] else []) + WithScore(t, v)
    decreases |t|
  {
    if t == [] || t[0].1 <= x.1 {
      WithScoreCons(x, t, v);
    } else {
      NonIncreasingTail(t);
      InsertWithScore(x, t[1..], v);
      WithScoreCons(t[0], Insert(x, t[1..]), v);
      WithScoreCons(t[0], t[1..], v);
      assert [t[0]] + t[1..] == t;
    }
  }

  /** The sort is stable: the items of any one score keep their order. */
  lemma {:induction false} SortDescStable<K>(s: seq<(K, real)>, v: real)
    ensures WithScore(SortDesc(s), v) == WithScore(s, v)
    decreases |s|
  {
    if s != [] {
      SortDescStable(s[1..], v);
      SortDescNonIncreasing(s[1..]);
      InsertWithScore(s[0], SortDesc(s[1..]), v);
    }
  }

  lemma {:induction false} InsertDistinct<K>(x: (K, real), t: seq<(K, real)>)
    requires Distinct(t) && x !in t
    ensures Distinct(Insert(x, t))
    decreases |t|
  {
    if t != [] && t[0].1 > x.1 {
      DistinctHead(t);
      assert t[0] in t;
      InsertDistinct(x, t[1..]);
      var rest := Insert(x, t[1..]);
      assert t[0] !in multiset(rest);
      DistinctConcat([t[0]], rest);
    }
  }

  /** Sorting items without repetitions gives items without repetitions. */
  lemma {:induction false} SortDescDistinct<K>(s: seq<(K, real)>)
    requires Distinct(s)
    ensures Distinct(SortDesc(s))
    decreases |s|
  {
    if s != [] {
      DistinctHead(s);
      SortDescDistinct(s[1..]);
      assert s[0] !in multiset(SortDesc(s[1..]));
      InsertDistinct(s[0], SortDesc(s[1..]));
    }
  }

  /** Every item carries the score `score` gives its key. */
  predicate Scored<K>(t: seq<(K, real)>, score: map<K, real>) {
    forall i :: 0 <= i < |t| ==> t[i].0 in score && t[i].1 == score[t[i].0]
  }

  /** Sorting keeps the number of items and the score of each key. */
  lemma SortDescItems<K>(s: seq<(K, real)>, score: map<K, real>)
    requires Scored(s, score)
    ensures |SortDesc(s)| == |s| && Scored(SortDesc(s), score)
  {
    var t := SortDesc(s);
    assert |t| == |multiset(t)| == |multiset(s)| == |s|;
    forall i | 0 <= i < |t|
      ensures t[i].0 in score && t[i].1 == score[t[i].0]
    {
      assert t[i] in multiset(s);
      var j :| 0 <= j < |s| && s[j] == t[i];
    }
  }

  /** Sorting loses no key. */
  lemma SortDescKeys<K>(s: seq<(K, real)>)
    ensures forall x :: x in FirstOfEach(s) ==> x in FirstOfEach(SortDesc(s))
  {
    var t := SortDesc(s);
    forall x | x in FirstOfEach(s)
      ensures x in FirstOfEach(t)
    {
      var j :| 0 <= j < |s| && FirstOfEach(s)[j] == x;
      assert s[j] in multiset(t);
      var i :| 0 <= i < |t| && t[i] == s[j];
      assert FirstOfEach(t)[i] == x;
    }
  }

  /** Distinct items scored by key have distinct keys. */
  lemma DistinctFirsts<K>(t: seq<(K, real)>, score: map<K, real>)
    requires Distinct(t) && Scored(t, score)
    ensures Distinct(FirstOfEach(t))
  {
    forall i, j | 0 <= i < j < |t|
      ensures FirstOfEach(t)[i] != FirstOfEach(t)[j]
    {
      assert t[i] != t[j];
    }
  }

  /** The first `n` keys of a sorted sequence come in order of non-increasing score. */
  lemma TopInOrder<K>(t: seq<(K, real)>, n: int, score: map<K, real>)
    requires NonIncreasing(t) && Scored(t, score)
    ensures var ids := Take(FirstOfEach(t), n);
      forall i, j :: 0 <= i < j < |ids| ==> (ids[i] in score && ids[j] in score && score[ids[i]] >= score[ids[j]])
  {
    var ids := Take(FirstOfEach(t), n);
    assert forall k :: 0 <= k < |ids| ==> ids[k] == t[k].0;
  }

  /** No key left out of the first `n` of a sorted sequence scores higher than one kept. */
  lemma TopAreBest<K>(t: seq<(K, real)>, n: int, score: map<K, real>)
    requires NonIncreasing(t) && Scored(t, score)
    ensures var ids := Take(FirstOfEach(t), n);
      forall x, y :: x in ids && y in FirstOfEach(t) && y !in ids ==> (x in score && y in score && score[x] >= score[y])
  {
    var ids := Take(FirstOfEach(t), n);
    assert forall k :: 0 <= k < |ids| ==> ids[k] == FirstOfEach(t)[k];
    forall x, y | x in ids && y in FirstOfEach(t) && y !in ids
      ensures x in score && y in score && score[x] >= score[y]
    {
      var i :| 0 <= i < |ids| && ids[i] == x;
      assert forall k :: 0 <= k < |ids| ==> FirstOfEach(t)[k] != y;
      var m :| 0 <= m < |t| && FirstOfEach(t)[m] == y;
      assert t[i].0 == x && t[m].0 == y;
    }
  }

  /** The items of one score in a prefix are a prefix of those in the whole. */
  lemma {:induction false} WithScorePrefix<K>(p: seq<(K, real)>, t: seq<(K, real)>, v: real)
    requires p <= t
    ensures WithScore(p, v) <= WithScore(t, v)
    decreases |p|
  {
    if p != [] {
      assert p[1..] <= t[1..];
      WithScorePrefix(p[1..], t[1..], v);
    }
  }

  /** Where the slice `[:n]` of a sequence of length `len` stops. */
  function SliceStop(len: nat, n: int): (k: nat)
    ensures k <= len
  {
    if n >= 0 then (if n < len then n else len)
    else if len + n > 0 then len + n else 0
  }

  /** `s[:n]`: the first `n` items, or all but the last `-n` for a negative `n`. */
  function Take<T>(s: seq<T>, n: int): (r: seq<T>)
    ensures r <= s && |r| == SliceStop(|s|, n)
  {
    s[..SliceStop(|s|, n)]
  }

  /**
   * What `s[:n]` keeps: at most `n` items for a non-negative `n`, all of `s` once
   * `n` reaches its length, everything but the last `-n` items for a negative `n`
   * down to `-len(s)`, and nothing below that.
   */
  lemma TakeMeaning<T>(s: seq<T>, n: int)
    ensures 0 <= n ==> |Take(s, n)| <= n
    ensures 0 <= n < |s| ==> |Take(s, n)| == n
    ensures n >= |s| ==> Take(s, n) == s
    ensures -|s| <= n < 0 ==> Take(s, n) + s[|s| + n..] == s
    ensures n <= -|s| ==> Take(s, n) == []
  {
    if -|s| <= n < 0 {
      assert Take(s, n) == s[..|s| + n];
    }
  }

  /** A slice of a sequence without repetitions has none, and holds only its items. */
  lemma TakeDistinct<T>(s: seq<T>, n: int)
    requires Distinct(s)
    ensures Distinct(Take(s, n)) && forall x :: x in Take(s, n) ==> x in s
  {
    var r := Take(s, n);
    assert forall k :: 0 <= k < |r| ==> r[k] == s[k];
  }
}
