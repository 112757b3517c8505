/** Index entries ordered by (encoded key, rowid), and the eight-byte big-endian key encoding. */
module IndexKeys {

  import opened Words

  // ----- big-endian encoding

  function Pow256(n: nat): (p: nat)
    ensures p > 0
  {
    if n == 0 then 1 else 256 * Pow256(n - 1)
  }

  /** The n low-order bytes of v, most significant first. */
  function Bytes(v: nat, n: nat): (b: seq<byte>)
    requires v < Pow256(n)
    ensures |b| == n
  {
    if n == 0 then [] else Bytes(v / 256, n - 1) + [v % 256]
  }

  function Value(b: seq<byte>): nat {
    if b == [] then 0 else 256 * Value(b[..|b| - 1]) + b[|b| - 1] as int
  }

  /** Decoding gives the number back. */
  lemma {:induction false} ValueOfBytes(v: nat, n: nat)
    requires v < Pow256(n)
    ensures Value(Bytes(v, n)) == v
  {
    if n == 0 {
    } else {
      var b := Bytes(v, n);
      assert b[..n - 1] == Bytes(v / 256, n - 1);
      ValueOfBytes(v / 256, n - 1);
    }
  }

  /** How byte arrays of one length compare. */
  predicate LexLess(a: seq<byte>, b: seq<byte>) {
    |a| > 0 && |b| > 0 && (a[0] < b[0] || (a[0] == b[0] && LexLess(a[1..], b[1..])))
  }

  lemma {:induction false} LexLast(a: seq<byte>, b: seq<byte>, x: byte, y: byte)
    requires |a| == |b|
    ensures LexLess(a + [x], b + [y]) <==> LexLess(a, b) || (a == b && x < y)
  {
    if a == [] {
      assert [x][1..] == [] && [y][1..] == [];
    } else {
      assert (a + [x])[1..] == a[1..] + [x] && (b + [y])[1..] == b[1..] + [y];
      LexLast(a[1..], b[1..], x, y);
      assert a == [a[0]] + a[1..] && b == [b[0]] + b[1..];
    }
  }

  /** Byte order is numeric order, and the bytes are determined by the number. */
  lemma {:induction false} LexIsNumeric(a: seq<byte>, b: seq<byte>)
    requires |a| == |b|
    ensures LexLess(a, b) <==> Value(a) < Value(b)
    ensures Value(a) == Value(b) ==> a == b
  {
    if a == [] {
    } else {
      var n := |a| - 1;
      assert a == a[..n] + [a[n]] && b == b[..n] + [b[n]];
      LexIsNumeric(a[..n], b[..n]);
      LexLast(a[..n], b[..n], a[n], b[n]);
    }
  }

  /** Encoding is injective and keeps the order. */
  lemma BytesOrder(u: nat, v: nat, n: nat)
    requires u < Pow256(n) && v < Pow256(n)
    ensures LexLess(Bytes(u, n), Bytes(v, n)) <==> u < v
    ensures Bytes(u, n) == Bytes(v, n) <==> u == v
  {
    ValueOfBytes(u, n);
    ValueOfBytes(v, n);
    LexIsNumeric(Bytes(u, n), Bytes(v, n));
  }

  // ----- entries

  type Key = k: seq<byte> | |k| == 8 witness [0, 0, 0, 0, 0, 0, 0, 0]
  datatype Entry = Entry(key: Key, rowid: int)

  predicate Less(a: Entry, b: Entry) {
    LexLess(a.key, b.key) || (a.key == b.key && a.rowid < b.rowid)
  }

  /** Entries compare as the pairs (numeric key, rowid). */
  lemma LessIsNumeric(a: Entry, b: Entry)
    ensures Less(a, b) <==> Value(a.key) < Value(b.key) || (Value(a.key) == Value(b.key) && a.rowid < b.rowid)
    ensures a == b <==> Value(a.key) == Value(b.key) && a.rowid == b.rowid
  {
    LexIsNumeric(a.key, b.key);
  }

  lemma Transitive(a: Entry, b: Entry, c: Entry)
    requires !Less(b, a) && !Less(c, b)
    ensures !Less(c, a)
  {
    LessIsNumeric(b, a);
    LessIsNumeric(c, b);
    LessIsNumeric(c, a);
  }

  lemma Total(a: Entry, b: Entry)
    ensures Less(a, b) || Less(b, a) || a == b
    ensures !(Less(a, b) && Less(b, a))
  {
    LessIsNumeric(a, b);
    LessIsNumeric(b, a);
  }

  // ----- sorted sequences of entries

  ghost predicate Sorted(s: seq<Entry>) {
    forall i, j :: 0 <= i < j < |s| ==> !Less(s[j], s[i])
  }

  function Insert(s: seq<Entry>, e: Entry): seq<Entry> {
    if s == [] then [e] else if Less(e, s[0]) then [e] + s else [s[0]] + Insert(s[1..], e)
  }

  function Remove(s: seq<Entry>, e: Entry): seq<Entry> {
    if s == [] then [] else if s[0] == e then s[1..] else [s[0]] + Remove(s[1..], e)
  }

  lemma {:induction false} InsertContents(s: seq<Entry>, e: Entry)
    ensures multiset(Insert(s, e)) == multiset(s) + multiset{e}
  {
    if s == [] {
    } else {
      assert s == [s[0]] + s[1..];
      if !Less(e, s[0]) { InsertContents(s[1..], e); }
    }
  }

  lemma {:induction false} RemoveContents(s: seq<Entry>, e: Entry)
    ensures multiset(Remove(s, e)) == multiset(s) - multiset{e}
  {
    if s == [] {
    } else {
      assert s == [s[0]] + s[1..];
      if s[0] != e { RemoveContents(s[1..], e); }
    }
  }

  lemma HeadFirst(x: Entry, s: seq<Entry>)
    requires Sorted(s) && forall y :: y in s ==> !Less(y, x)
    ensures Sorted([x] + s)
  {
    var t := [x] + s;
    forall i, j | 0 <= i < j < |t| ensures !Less(t[j], t[i]) {
      if i == 0 { assert t[j] in s; }
    }
  }

  lemma {:induction false} InsertSorted(s: seq<Entry>, e: Entry)
    requires Sorted(s)
    ensures Sorted(Insert(s, e))
  {
    if s == [] {
    } else if Less(e, s[0]) {
      forall y | y in s ensures !Less(y, e) {
        Total(e, s[0]);
        var j :| 0 <= j < |s| && s[j] == y;
        if j > 0 { Transitive(e, s[0], y); }
      }
      HeadFirst(e, s);
    } else {
      var rest := Insert(s[1..], e);
      InsertSorted(s[1..], e);
      InsertContents(s[1..], e);
      forall y | y in rest ensures !Less(y, s[0]) {
        assert y in multiset(rest);
        if y != e { assert y in s[1..]; }
      }
      HeadFirst(s[0], rest);
    }
  }

  lemma {:induction false} RemoveSorted(s: seq<Entry>, e: Entry)
    requires Sorted(s)
    ensures Sorted(Remove(s, e))
  {
    if s == [] || s[0] == e {
    } else {
      var rest := Remove(s[1..], e);
      RemoveSorted(s[1..], e);
      RemoveContents(s[1..], e);
      forall y | y in rest ensures !Less(y, s[0]) {
        assert y in multiset(rest);
        assert y in s[1..];
      }
      HeadFirst(s[0], rest);
    }
  }

  /** A sorted sequence is determined by its contents. */
  lemma {:induction false} SortedIsUnique(s: seq<Entry>, t: seq<Entry>)
    requires Sorted(s) && Sorted(t) && multiset(s) == multiset(t)
    ensures s == t
  {
    if s == [] {
      assert |multiset(t)| == 0;
    } else {
      assert |multiset(s)| == |multiset(t)|;
      FirstAgrees(s, t);
      FirstAgrees(t, s);
      Total(s[0], t[0]);
      TailContents(s);
      TailContents(t);
      SortedIsUnique(s[1..], t[1..]);
    }
  }

  lemma TailContents(s: seq<Entry>)
    requires s != []
    ensures s == [s[0]] + s[1..] && multiset(s[1..]) == multiset(s) - multiset{s[0]}
  {
    assert s == [s[0]] + s[1..];
  }

  lemma FirstAgrees(s: seq<Entry>, t: seq<Entry>)
    requires Sorted(s) && s != [] && t != [] && multiset(s) == multiset(t)
    ensures !Less(t[0], s[0])
  {
    assert t[0] in multiset(t);
    assert t[0] in s;
    var j :| 0 <= j < |s| && s[j] == t[0];
    if j == 0 { Total(s[0], s[0]); }
  }

  /** Sorting by (key, rowid). */
  function Sort(s: seq<Entry>): seq<Entry> {
    if s == [] then [] else Insert(Sort(s[1..]), s[0])
  }

  lemma {:induction false} SortSpec(s: seq<Entry>)
    ensures Sorted(Sort(s)) && multiset(Sort(s)) == multiset(s)
  {
    if s == [] {
    } else {
      SortSpec(s[1..]);
      InsertSorted(Sort(s[1..]), s[0]);
      InsertContents(Sort(s[1..]), s[0]);
      assert s == [s[0]] + s[1..];
    }
  }
}
