/** GROUP BY with SUM. A grouped query is modelled as: the distinct group
    keys in order of first appearance, and for each key the sum over the rows
    carrying it. The central fact is that grouping conserves the grand total
    when the keys are distinct and cover every row. */
module Grouping {
  import opened Seqs

  /** The distinct values of `ks`, each kept at its first occurrence. */
  function Dedup<K(==)>(ks: seq<K>): (r: seq<K>)
    ensures Distinct(r)
    ensures forall i :: 0 <= i < |r| ==> r[i] in ks
    ensures forall i :: 0 <= i < |ks| ==> ks[i] in r
  {
    if |ks| == 0 then []
    else
      var init := ks[..|ks| - 1];
      var r := Dedup(init);
      assert forall i :: 0 <= i < |init| ==> init[i] == ks[i];
      if ks[|ks| - 1] in r then r else r + [ks[|ks| - 1]]
  }

  /** SUM(amount) over the rows of `xs` whose key is `k`; 0 when none has it. */
  function GroupTotal<T, K(==)>(xs: seq<T>, key: T -> K, amount: T -> int, k: K): int
  {
    if |xs| == 0 then 0
    else (if key(xs[0]) == k then amount(xs[0]) else 0) + GroupTotal(xs[1..], key, amount, k)
  }

  /** The group totals of all keys in `ks`, added up. */
  function KeysTotal<T, K(==)>(xs: seq<T>, key: T -> K, amount: T -> int, ks: seq<K>): int
  {
    if |ks| == 0 then 0
    else GroupTotal(xs, key, amount, ks[0]) + KeysTotal(xs, key, amount, ks[1..])
  }

  /** `a` once for every position of `ks` holding `k`. */
  function Hits<K(==)>(ks: seq<K>, k: K, a: int): int
  {
    if |ks| == 0 then 0 else (if ks[0] == k then a else 0) + Hits(ks[1..], k, a)
  }

  lemma {:induction false} HitsOfDistinct<K>(ks: seq<K>, k: K, a: int)
    requires Distinct(ks)
    ensures Hits(ks, k, a) == if k in ks then a else 0
  {
    if |ks| > 0 {
      assert Distinct(ks[1..]) by {
        forall i, j | 0 <= i < j < |ks[1..]| ensures ks[1..][i] != ks[1..][j] {
          assert ks[1..][i] == ks[i + 1] && ks[1..][j] == ks[j + 1];
        }
      }
      HitsOfDistinct(ks[1..], k, a);
      assert ks == [ks[0]] + ks[1..];
      if ks[0] == k {
        forall i | 0 <= i < |ks[1..]| ensures ks[1..][i] != k {
          assert ks[1..][i] == ks[i + 1];
        }
      }
    }
  }

  lemma {:induction false} KeysTotalOfEmpty<T, K>(xs: seq<T>, key: T -> K, amount: T -> int, ks: seq<K>)
    requires |xs| == 0
    ensures KeysTotal(xs, key, amount, ks) == 0
  {
    if |ks| > 0 {
      KeysTotalOfEmpty(xs, key, amount, ks[1..]);
    }
  }

  lemma {:induction false} KeysTotalStep<T, K>(xs: seq<T>, key: T -> K, amount: T -> int, ks: seq<K>)
    requires |xs| > 0
    ensures KeysTotal(xs, key, amount, ks)
         == Hits(ks, key(xs[0]), amount(xs[0])) + KeysTotal(xs[1..], key, amount, ks)
  {
    if |ks| > 0 {
      KeysTotalStep(xs, key, amount, ks[1..]);
    }
  }

  /** Grouping conserves the total: when the keys are distinct and every row's
      key is among them, the group totals add up to the sum over all rows. */
  lemma {:induction false} GroupingConserves<T, K>(xs: seq<T>, key: T -> K, amount: T -> int, ks: seq<K>)
    requires Distinct(ks)
    requires forall i :: 0 <= i < |xs| ==> key(xs[i]) in ks
    ensures KeysTotal(xs, key, amount, ks) == SumBy(xs, amount)
  {
    if |xs| == 0 {
      KeysTotalOfEmpty(xs, key, amount, ks);
    } else {
      KeysTotalStep(xs, key, amount, ks);
      HitsOfDistinct(ks, key(xs[0]), amount(xs[0]));
      assert forall i :: 0 <= i < |xs[1..]| ==> xs[1..][i] == xs[i + 1];
      GroupingConserves(xs[1..], key, amount, ks);
    }
  }

  /** A key that no row carries has a zero total. */
  lemma {:induction false} GroupTotalOfAbsent<T, K>(xs: seq<T>, key: T -> K, amount: T -> int, k: K)
    requires forall i :: 0 <= i < |xs| ==> key(xs[i]) != k
    ensures GroupTotal(xs, key, amount, k) == 0
  {
    if |xs| > 0 {
      assert forall i :: 0 <= i < |xs[1..]| ==> xs[1..][i] == xs[i + 1];
      GroupTotalOfAbsent(xs[1..], key, amount, k);
    }
  }

  /** A grouped row's key and total. */
  function GroupKey<K>(g: (K, int)): K
  {
    g.0
  }

  function GroupSum<K>(g: (K, int)): int
  {
    g.1
  }

  /** One (key, group total) pair per key of `ks`. */
  function GroupRows<T, K(==)>(xs: seq<T>, key: T -> K, amount: T -> int, ks: seq<K>): (r: seq<(K, int)>)
    ensures |r| == |ks|
    ensures forall i :: 0 <= i < |r| ==> r[i] == (ks[i], GroupTotal(xs, key, amount, ks[i]))
  {
    if |ks| == 0 then []
    else [(ks[0], GroupTotal(xs, key, amount, ks[0]))] + GroupRows(xs, key, amount, ks[1..])
  }

  /** SELECT key, SUM(amount) ... GROUP BY key: one row per key that occurs
      in `xs` (in order of first appearance), carrying the sum over the rows
      with that key. */
  function Groups<T, K(==)>(xs: seq<T>, key: T -> K, amount: T -> int): (r: seq<(K, int)>)
    ensures forall i :: 0 <= i < |r| ==> r[i].1 == GroupTotal(xs, key, amount, r[i].0)
    ensures KeysDistinct(r, GroupKey)
    ensures KeySet(r, GroupKey) == KeySet(xs, key)
  {
    var ks := Dedup(Images(xs, key));
    var r := GroupRows(xs, key, amount, ks);
    forall x | x in KeySet(r, GroupKey) ensures x in KeySet(xs, key) {
      var i :| 0 <= i < |r| && GroupKey(r[i]) == x;
      assert ks[i] in Images(xs, key);
      var j :| 0 <= j < |xs| && Images(xs, key)[j] == x;
    }
    forall j | 0 <= j < |xs| ensures key(xs[j]) in KeySet(r, GroupKey) {
      assert Images(xs, key)[j] == key(xs[j]);
      var i :| 0 <= i < |ks| && ks[i] == key(xs[j]);
      assert GroupKey(r[i]) == key(xs[j]);
    }
    r
  }

  lemma {:induction false} GroupRowsTotal<T, K>(xs: seq<T>, key: T -> K, amount: T -> int, ks: seq<K>)
    ensures SumBy(GroupRows(xs, key, amount, ks), GroupSum) == KeysTotal(xs, key, amount, ks)
  {
    if |ks| > 0 {
      GroupRowsTotal(xs, key, amount, ks[1..]);
      var r := GroupRows(xs, key, amount, ks);
      assert r[1..] == GroupRows(xs, key, amount, ks[1..]);
    }
  }

  /** The group totals of a GROUP BY add up to the sum over all its rows. */
  lemma GroupsConserve<T, K>(xs: seq<T>, key: T -> K, amount: T -> int)
    ensures SumBy(Groups(xs, key, amount), GroupSum) == SumBy(xs, amount)
  {
    var ks := Dedup(Images(xs, key));
    GroupRowsTotal(xs, key, amount, ks);
    assert forall k :: 0 <= k < |xs| ==> key(xs[k]) in ks by {
      forall k | 0 <= k < |xs| ensures key(xs[k]) in ks {
        assert Images(xs, key)[k] == key(xs[k]);
      }
    }
    GroupingConserves(xs, key, amount, ks);
  }
}
