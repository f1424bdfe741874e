/**
 * One Eloquent aggregate query, `Model::where…(key = k)->sum(field)`, read as
 * "filter an in-memory snapshot of rows by a key and sum a field", together
 * with bucketing a snapshot over a sequence of keys (one query per key).
 */
module Aggregate {

  /** Sum of `value(x)` over the records `x` of `s` with `key(x) == k`; 0 when none match (SQL SUM over no rows, which Eloquent's `sum` returns as 0). */
  function SumWhere<T, K(==)>(s: seq<T>, key: T -> K, value: T -> int, k: K): (r: int)
    ensures (forall i :: 0 <= i < |s| ==> key(s[i]) != k) ==> r == 0
    ensures (forall i :: 0 <= i < |s| ==> value(s[i]) >= 0) ==> r >= 0
  {
    if s == [] then 0
    else SumWhere(s[..|s| - 1], key, value, k) + (if key(s[|s| - 1]) == k then value(s[|s| - 1]) else 0)
  }

  /** Sum of `value(x)` over the records whose key is any of `ks`. */
  function SumWhereAny<T, K(==)>(s: seq<T>, key: T -> K, value: T -> int, ks: seq<K>): int {
    if s == [] then 0
    else SumWhereAny(s[..|s| - 1], key, value, ks) + (if key(s[|s| - 1]) in ks then value(s[|s| - 1]) else 0)
  }

  /** One sum per key, in the order of `ks`. */
  function Buckets<T, K(==)>(s: seq<T>, key: T -> K, value: T -> int, ks: seq<K>): (r: seq<int>)
    ensures |r| == |ks|
    ensures forall i :: 0 <= i < |ks| ==> r[i] == SumWhere(s, key, value, ks[i])
  {
    if ks == [] then [] else [SumWhere(s, key, value, ks[0])] + Buckets(s, key, value, ks[1..])
  }

  function Total(xs: seq<int>): int {
    if xs == [] then 0 else xs[0] + Total(xs[1..])
  }

  predicate Distinct<K(==)>(ks: seq<K>) {
    forall i, j :: 0 <= i < j < |ks| ==> ks[i] != ks[j]
  }

  /** Summing over a concatenation is summing over each part. */
  lemma {:induction false} SumWhereAppend<T, K>(a: seq<T>, b: seq<T>, key: T -> K, value: T -> int, k: K)
    ensures SumWhere(a + b, key, value, k) == SumWhere(a, key, value, k) + SumWhere(b, key, value, k)
  {
    if b == [] {
      assert a + b == a;
    } else {
      assert (a + b)[..|a + b| - 1] == a + b[..|b| - 1];
      SumWhereAppend(a, b[..|b| - 1], key, value, k);
    }
  }

  /** A database returns rows in no particular order: the sum does not depend on it. */
  lemma {:induction false} SumWherePermutation<T, K>(a: seq<T>, b: seq<T>, key: T -> K, value: T -> int, k: K)
    requires multiset(a) == multiset(b)
    ensures SumWhere(a, key, value, k) == SumWhere(b, key, value, k)
    decreases |a|
  {
    if a != [] {
      var x := a[|a| - 1];
      var a' := a[..|a| - 1];
      assert a == a' + [x];
      assert x in multiset(b);
      var j :| 0 <= j < |b| && b[j] == x;
      var b1, b2 := b[..j], b[j + 1..];
      assert b == b1 + [x] + b2;
      MultisetRemoveOne(a', x, b1, b2);
      SumWherePermutation(a', b1 + b2, key, value, k);
      SumWhereAppend(b1 + [x], b2, key, value, k);
      SumWhereAppend(b1, [x], key, value, k);
      SumWhereAppend(b1, b2, key, value, k);
      assert [x][..0] == [];
    } else {
      assert |b| == |multiset(b)| == 0;
    }
  }

  /** A record whose key is not among the bucket keys changes no bucket, wherever it stands. */
  lemma BucketsIgnoreUnmatched<T, K>(s1: seq<T>, x: T, s2: seq<T>, key: T -> K, value: T -> int, ks: seq<K>)
    requires key(x) !in ks
    ensures Buckets(s1 + [x] + s2, key, value, ks) == Buckets(s1 + s2, key, value, ks)
  {
    forall i | 0 <= i < |ks|
      ensures SumWhere(s1 + [x] + s2, key, value, ks[i]) == SumWhere(s1 + s2, key, value, ks[i])
    {
      SumWhereAppend(s1 + [x], s2, key, value, ks[i]);
      SumWhereAppend(s1, [x], key, value, ks[i]);
      SumWhereAppend(s1, s2, key, value, ks[i]);
      assert [x][..0] == [];
    }
  }

  /** Appending one record adds its value to exactly the buckets whose key it has. */
  lemma BucketsAppendRecord<T, K>(s: seq<T>, x: T, key: T -> K, value: T -> int, ks: seq<K>, i: int)
    requires 0 <= i < |ks|
    ensures Buckets(s + [x], key, value, ks)[i]
         == Buckets(s, key, value, ks)[i] + (if key(x) == ks[i] then value(x) else 0)
  {
    assert (s + [x])[..|s + [x]| - 1] == s;
  }

  /** Splitting off one key that the rest do not contain. */
  lemma {:induction false} SumWhereAnyCons<T, K>(s: seq<T>, key: T -> K, value: T -> int, k: K, ks: seq<K>)
    requires k !in ks
    ensures SumWhereAny(s, key, value, [k] + ks) == SumWhere(s, key, value, k) + SumWhereAny(s, key, value, ks)
  {
    if s != [] {
      SumWhereAnyCons(s[..|s| - 1], key, value, k, ks);
    }
  }

  /**
   * Over distinct keys every record lands in at most one bucket, so the
   * buckets add up to the sum over the records whose key is any of the keys.
   */
  lemma {:induction false} BucketsTotal<T, K>(s: seq<T>, key: T -> K, value: T -> int, ks: seq<K>)
    requires Distinct(ks)
    ensures Total(Buckets(s, key, value, ks)) == SumWhereAny(s, key, value, ks)
  {
    if ks == [] {
      SumWhereAnyEmpty(s, key, value);
    } else {
      var rest := ks[1..];
      assert Distinct(rest);
      assert ks == [ks[0]] + rest;
      BucketsTotal(s, key, value, rest);
      SumWhereAnyCons(s, key, value, ks[0], rest);
    }
  }

  lemma {:induction false} SumWhereAnyEmpty<T, K>(s: seq<T>, key: T -> K, value: T -> int)
    ensures SumWhereAny(s, key, value, []) == 0
  {
    if s != [] {
      SumWhereAnyEmpty(s[..|s| - 1], key, value);
    }
  }

  /** Taking the same element out of two equal multisets leaves equal multisets. */
  lemma MultisetRemoveOne<T>(a: seq<T>, x: T, b1: seq<T>, b2: seq<T>)
    requires multiset(a + [x]) == multiset(b1 + [x] + b2)
    ensures multiset(a) == multiset(b1 + b2)
  {
    calc {
      multiset(a);
      multiset(a + [x]) - multiset{x};
      multiset(b1 + [x] + b2) - multiset{x};
      multiset(b1) + multiset(b2);
      multiset(b1 + b2);
    }
  }

  /** Records that agree on key and value give the same sums, whatever else they carry. */
  lemma {:induction false} SumWhereCongruent<T, K>(a: seq<T>, b: seq<T>, key: T -> K, value: T -> int, k: K)
    requires |a| == |b|
    requires forall i :: 0 <= i < |a| ==> key(a[i]) == key(b[i]) && value(a[i]) == value(b[i])
    ensures SumWhere(a, key, value, k) == SumWhere(b, key, value, k)
  {
    if a != [] {
      SumWhereCongruent(a[..|a| - 1], b[..|b| - 1], key, value, k);
    }
  }
}
