/** Option and Result, the two failure-carrying shapes the store uses:
    `Option` stands for a nullable column or a `rows[0] || null` lookup,
    `Result` for a statement that either commits or raises a database error. */
module Basics {

  datatype Option<+T> = None | Some(value: T)

  datatype Result<+T, +E> = Ok(value: T) | Err(error: E)
}

/** Sequence helpers shared by every query: filtering (a SQL WHERE), first
    match (a lookup by key), sums (SQL SUM) and distinct keys. */
module Seqs {
  import opened Basics

  /** The elements of `xs` that satisfy `p`, in their original order. */
  function Filter<T>(xs: seq<T>, p: T -> bool): (r: seq<T>)
    ensures |r| <= |xs|
    ensures forall i :: 0 <= i < |r| ==> r[i] in xs && p(r[i])
    ensures forall i :: 0 <= i < |xs| && p(xs[i]) ==> xs[i] in r
  {
    if |xs| == 0 then []
    else if p(xs[0]) then [xs[0]] + Filter(xs[1..], p)
    else Filter(xs[1..], p)
  }

  /** The first element of `xs` that satisfies `p`, if any. */
  function FindFirst<T>(xs: seq<T>, p: T -> bool): (r: Option<T>)
    ensures r.Some? ==> r.value in xs && p(r.value)
    ensures r.None? <==> forall i :: 0 <= i < |xs| ==> !p(xs[i])
  {
    if |xs| == 0 then None
    else if p(xs[0]) then Some(xs[0])
    else FindFirst(xs[1..], p)
  }

  /** Sum of `amount` over `xs`; the empty sum is 0. */
  function SumBy<T>(xs: seq<T>, amount: T -> int): int
  {
    if |xs| == 0 then 0 else amount(xs[0]) + SumBy(xs[1..], amount)
  }

  /** No two positions of `xs` carry the same key. */
  predicate KeysDistinct<T, K(==)>(xs: seq<T>, key: T -> K)
  {
    forall i, j :: 0 <= i < j < |xs| ==> key(xs[i]) != key(xs[j])
  }

  /** No value occurs twice in `ks`. */
  predicate Distinct<K(==)>(ks: seq<K>)
  {
    forall i, j :: 0 <= i < j < |ks| ==> ks[i] != ks[j]
  }

  /** Filtering keeps keys distinct: a WHERE clause never creates duplicates. */
  lemma {:induction false} FilterKeysDistinct<T, K>(xs: seq<T>, p: T -> bool, key: T -> K)
    requires KeysDistinct(xs, key)
    ensures KeysDistinct(Filter(xs, p), key)
  {
    if |xs| > 0 {
      var rest := Filter(xs[1..], p);
      assert KeysDistinct(xs[1..], key) by {
        forall i, j | 0 <= i < j < |xs[1..]|
          ensures key(xs[1..][i]) != key(xs[1..][j])
        {
          assert xs[1..][i] == xs[i + 1] && xs[1..][j] == xs[j + 1];
        }
      }
      FilterKeysDistinct(xs[1..], p, key);
      if p(xs[0]) {
        var r := [xs[0]] + rest;
        forall i, j | 0 <= i < j < |r| ensures key(r[i]) != key(r[j]) {
          if i == 0 {
            assert r[j] in rest;
            assert r[j] in xs[1..];
            var k :| 0 <= k < |xs[1..]| && xs[1..][k] == r[j];
            assert xs[k + 1] == r[j];
          } else {
            assert r[i] == rest[i - 1] && r[j] == rest[j - 1];
          }
        }
      }
    }
  }

  /** Sums distribute over concatenation. */
  lemma {:induction false} SumByConcat<T>(a: seq<T>, b: seq<T>, amount: T -> int)
    ensures SumBy(a + b, amount) == SumBy(a, amount) + SumBy(b, amount)
  {
    if |a| > 0 {
      assert (a + b)[1..] == a[1..] + b;
      SumByConcat(a[1..], b, amount);
    } else {
      assert a + b == b;
    }
  }

  /** A sum does not depend on the order of its terms: reordering rows (an
      ORDER BY) leaves every total over them unchanged. */
  lemma {:induction false} SumByPermutation<T>(a: seq<T>, b: seq<T>, amount: T -> int)
    requires multiset(a) == multiset(b)
    ensures SumBy(a, amount) == SumBy(b, amount)
  {
    if |a| == 0 {
      assert |b| == |multiset(b)| == 0;
    } else {
      var x := a[0];
      assert x in multiset(b);
      var i :| 0 <= i < |b| && b[i] == x;
      var b' := b[..i] + b[i + 1..];
      RemoveOne(b, i);
      assert a == [x] + a[1..];
      assert multiset(a[1..]) == multiset(a) - multiset{x};
      SumByPermutation(a[1..], b', amount);
      SumByRemove(b, i, amount);
    }
  }

  /** The images of the elements of `xs` under `f`, in order. */
  function Images<T, U>(xs: seq<T>, f: T -> U): (r: seq<U>)
    ensures |r| == |xs| && forall i :: 0 <= i < |xs| ==> r[i] == f(xs[i])
  {
    seq(|xs|, i requires 0 <= i < |xs| => f(xs[i]))
  }

  /** Reordering a sequence reorders its images alike. */
  lemma {:induction false} ImagesPermute<T, U>(a: seq<T>, b: seq<T>, f: T -> U)
    requires multiset(a) == multiset(b)
    ensures multiset(Images(a, f)) == multiset(Images(b, f))
  {
    if |a| == 0 {
      assert |b| == |multiset(b)| == 0;
      assert Images(b, f) == [];
    } else {
      var x := a[0];
      assert x in multiset(b);
      var i :| 0 <= i < |b| && b[i] == x;
      var b' := b[..i] + b[i + 1..];
      RemoveOne(b, i);
      assert a == [x] + a[1..];
      assert multiset(a[1..]) == multiset(a) - multiset{x};
      ImagesPermute(a[1..], b', f);
      assert Images(a, f) == [f(x)] + Images(a[1..], f);
      ImagesRemove(b, i, f);
    }
  }

  lemma ImagesRemove<T, U>(b: seq<T>, i: int, f: T -> U)
    requires 0 <= i < |b|
    ensures multiset(Images(b, f)) == multiset(Images(b[..i] + b[i + 1..], f)) + multiset{f(b[i])}
  {
    var fb := Images(b, f);
    assert Images(b[..i] + b[i + 1..], f) == fb[..i] + fb[i + 1..];
    RemoveOne(fb, i);
  }

  lemma RemoveOne<T>(b: seq<T>, i: int)
    requires 0 <= i < |b|
    ensures multiset(b[..i] + b[i + 1..]) == multiset(b) - multiset{b[i]}
  {
    assert b == b[..i] + [b[i]] + b[i + 1..];
  }

  lemma SumByRemove<T>(b: seq<T>, i: int, amount: T -> int)
    requires 0 <= i < |b|
    ensures SumBy(b, amount) == amount(b[i]) + SumBy(b[..i] + b[i + 1..], amount)
  {
    var front, rest := b[..i], b[i..];
    assert front + rest == b;
    SumByConcat(front, rest, amount);
    assert rest[1..] == b[i + 1..];
    SumByConcat(front, b[i + 1..], amount);
  }

  /** Positions with distinct keys hold each value at most once. */
  lemma {:induction false} KeysDistinctMultiplicity<T, K>(xs: seq<T>, key: T -> K, x: T)
    requires KeysDistinct(xs, key)
    ensures multiset(xs)[x] <= 1
  {
    if |xs| > 0 {
      assert KeysDistinct(xs[1..], key) by {
        forall i, j | 0 <= i < j < |xs[1..]| ensures key(xs[1..][i]) != key(xs[1..][j]) {
          assert xs[1..][i] == xs[i + 1] && xs[1..][j] == xs[j + 1];
        }
      }
      KeysDistinctMultiplicity(xs[1..], key, x);
      assert xs == [xs[0]] + xs[1..];
      if x == xs[0] {
        forall i | 0 <= i < |xs[1..]| ensures xs[1..][i] != x {
          assert xs[1..][i] == xs[i + 1];
        }
        assert x !in xs[1..];
      }
    }
  }

  /** A value at two positions occurs at least twice. */
  lemma RepeatedMultiplicity<T>(xs: seq<T>, i: int, j: int)
    requires 0 <= i < j < |xs| && xs[i] == xs[j]
    ensures multiset(xs)[xs[i]] >= 2
  {
    assert xs == xs[..j] + [xs[j]] + xs[j + 1..];
    assert xs[..j][i] == xs[i];
    assert xs[i] in multiset(xs[..j]);
  }

  /** Reordering rows keeps their keys distinct. */
  lemma PermutationKeepsKeysDistinct<T, K>(a: seq<T>, b: seq<T>, key: T -> K)
    requires multiset(a) == multiset(b) && KeysDistinct(a, key)
    ensures KeysDistinct(b, key)
  {
    forall i, j | 0 <= i < j < |b| ensures key(b[i]) != key(b[j]) {
      assert b[i] in multiset(a) && b[j] in multiset(a);
      if b[i] == b[j] {
        RepeatedMultiplicity(b, i, j);
        KeysDistinctMultiplicity(a, key, b[i]);
      }
    }
  }

  /** Sums agree when the terms agree position by position. */
  lemma {:induction false} SumByPointwise<T, U>(a: seq<T>, f: T -> int, b: seq<U>, g: U -> int)
    requires |a| == |b| && forall i :: 0 <= i < |a| ==> f(a[i]) == g(b[i])
    ensures SumBy(a, f) == SumBy(b, g)
  {
    if |a| > 0 {
      assert forall i :: 0 <= i < |a[1..]| ==> a[1..][i] == a[i + 1] && b[1..][i] == b[i + 1];
      SumByPointwise(a[1..], f, b[1..], g);
    }
  }

  /** The set of keys carried by the rows of `xs`. */
  function KeySet<T, K>(xs: seq<T>, key: T -> K): set<K>
  {
    set i | 0 <= i < |xs| :: key(xs[i])
  }

  /** Reordering rows keeps the set of their keys. */
  lemma PermutationKeepsKeySet<T, K>(a: seq<T>, b: seq<T>, key: T -> K)
    requires multiset(a) == multiset(b)
    ensures KeySet(a, key) == KeySet(b, key)
  {
    forall x | x in KeySet(a, key) ensures x in KeySet(b, key) {
      var i :| 0 <= i < |a| && key(a[i]) == x;
      assert a[i] in multiset(b);
      var j :| 0 <= j < |b| && b[j] == a[i];
    }
    forall x | x in KeySet(b, key) ensures x in KeySet(a, key) {
      var i :| 0 <= i < |b| && key(b[i]) == x;
      assert b[i] in multiset(a);
      var j :| 0 <= j < |a| && a[j] == b[i];
    }
  }

  /** Rows that agree key by key, position by position, carry the same key set. */
  lemma KeySetPointwise<T, U, K>(a: seq<T>, f: T -> K, b: seq<U>, g: U -> K)
    requires |a| == |b| && forall i :: 0 <= i < |a| ==> f(a[i]) == g(b[i])
    ensures KeySet(a, f) == KeySet(b, g)
  {
    forall x | x in KeySet(a, f) ensures x in KeySet(b, g) {
      var i :| 0 <= i < |a| && f(a[i]) == x;
      assert g(b[i]) == x;
    }
    forall x | x in KeySet(b, g) ensures x in KeySet(a, f) {
      var i :| 0 <= i < |b| && g(b[i]) == x;
      assert f(a[i]) == x;
    }
  }

  /** The keys of a filtered table are the keys of the rows the filter keeps. */
  lemma FilterKeySet<T, K>(xs: seq<T>, p: T -> bool, key: T -> K)
    ensures KeySet(Filter(xs, p), key) == set i | 0 <= i < |xs| && p(xs[i]) :: key(xs[i])
  {
    var r := Filter(xs, p);
    forall x | x in KeySet(r, key) ensures exists i :: 0 <= i < |xs| && p(xs[i]) && key(xs[i]) == x {
      var i :| 0 <= i < |r| && key(r[i]) == x;
      var j :| 0 <= j < |xs| && xs[j] == r[i];
    }
    forall i | 0 <= i < |xs| && p(xs[i]) ensures key(xs[i]) in KeySet(r, key) {
      var j :| 0 <= j < |r| && r[j] == xs[i];
    }
  }

  /** Reordering rows keeps a property every row has. */
  lemma PermutationKeepsAll<T>(a: seq<T>, b: seq<T>, p: T -> bool)
    requires multiset(a) == multiset(b)
    requires forall i :: 0 <= i < |a| ==> p(a[i])
    ensures forall i :: 0 <= i < |b| ==> p(b[i])
  {
    forall i | 0 <= i < |b| ensures p(b[i]) {
      assert b[i] in multiset(a);
      var j :| 0 <= j < |a| && a[j] == b[i];
    }
  }
}
