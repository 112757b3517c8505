/** Finite sets, tables and sequences: counting and summing. */
module Finite {

  // ----- sets

  function UpTo(m: nat): (s: set<nat>)
    ensures forall p: nat :: p in s <==> 1 <= p <= m
    ensures |s| == m
  {
    if m == 0 then {} else UpTo(m - 1) + {m}
  }

  function Below(n: nat): (s: set<nat>)
    ensures forall w: nat :: w in s <==> w < n
  {
    if n == 0 then {} else Below(n - 1) + {n - 1}
  }

  ghost predicate Distinct<T>(s: seq<T>) {
    forall i, j :: 0 <= i < j < |s| ==> s[i] != s[j]
  }

  lemma {:induction false} DistinctCount<T>(s: seq<T>)
    requires Distinct(s)
    ensures forall x :: multiset(s)[x] == if x in s then 1 else 0
  {
    if s == [] {
    } else {
      var n := |s| - 1;
      DistinctCount(s[..n]);
      assert s == s[..n] + [s[n]];
      assert s[n] !in s[..n];
    }
  }

  /** Distinct lists of the same things hold them equally often. */
  lemma SameMembers<T>(s: seq<T>, t: seq<T>)
    requires Distinct(s) && Distinct(t) && forall x :: x in s <==> x in t
    ensures multiset(s) == multiset(t)
  {
    DistinctCount(s);
    DistinctCount(t);
  }

  /** Pigeonhole: distinct members of a set are no more than its size. */
  lemma {:induction false} Pigeonhole<T>(s: seq<T>, keys: set<T>)
    requires Distinct(s) && forall x :: x in s ==> x in keys
    ensures |s| <= |keys|
  {
    if s == [] {
    } else {
      Pigeonhole(s[1..], keys - {s[0]});
    }
  }

  lemma NextMultiple(a: int, n: nat)
    ensures a * (n + 1) == a * n + a
  {
  }

  // ----- tables

  lemma PutUnion<K, V>(a: map<K, V>, b: map<K, V>, k: K, v: V)
    ensures a + b[k := v] == (a + b)[k := v]
  {
  }

  lemma UnionSwap<K, V>(a: map<K, V>, b: map<K, V>, c: map<K, V>)
    requires b.Keys !! c.Keys
    ensures (a + b) + c == (a + c) + b
  {
  }

  lemma UnionSize<K, V>(a: map<K, V>, b: map<K, V>)
    requires a.Keys !! b.Keys
    ensures |a + b| == |a| + |b|
  {
    assert (a + b).Keys == a.Keys + b.Keys;
  }

  lemma PutSize<K, V>(m: map<K, V>, k: K, v: V)
    requires k !in m
    ensures |m[k := v]| == |m| + 1
  {
    assert m[k := v].Keys == m.Keys + {k};
  }

  // ----- sums over a table

  ghost function Total<K, V>(m: map<K, V>, w: (K, V) -> int): int {
    if m == map[] then 0 else
    var k :| k in m;
    w(k, m[k]) + Total(m - {k}, w)
  }

  lemma {:induction false} TotalSplit<K, V>(m: map<K, V>, w: (K, V) -> int, k: K)
    requires k in m
    ensures Total(m, w) == w(k, m[k]) + Total(m - {k}, w)
    decreases |m|
  {
    var x :| x in m && Total(m, w) == w(x, m[x]) + Total(m - {x}, w);
    if x != k {
      TotalSplit(m - {x}, w, k);
      TotalSplit(m - {k}, w, x);
      assert m - {x} - {k} == m - {k} - {x};
    }
  }

  /** Writing one row moves the sum by the change of that row. */
  lemma TotalWrite<K, V>(m: map<K, V>, w: (K, V) -> int, k: K, v: V)
    ensures Total(m[k := v], w) == Total(m, w) + w(k, v) - (if k in m then w(k, m[k]) else 0)
  {
    var m' := m[k := v];
    TotalSplit(m', w, k);
    assert m' - {k} == m - {k};
    if k in m {
      TotalSplit(m, w, k);
    } else {
      assert m - {k} == m;
    }
  }

  /** Sums of disjoint tables add. */
  lemma {:induction false} TotalUnion<K, V>(a: map<K, V>, b: map<K, V>, w: (K, V) -> int)
    requires a.Keys !! b.Keys
    ensures Total(a + b, w) == Total(a, w) + Total(b, w)
    decreases b.Keys
  {
    if b == map[] {
      assert a + b == a;
    } else {
      var k :| k in b;
      var rest := b - {k};
      assert rest.Keys == b.Keys - {k};
      TotalUnion(a, rest, w);
      TotalWrite(a + rest, w, k, b[k]);
      TotalWrite(rest, w, k, b[k]);
      assert rest[k := b[k]] == b && (a + rest)[k := b[k]] == a + b;
    }
  }
}
