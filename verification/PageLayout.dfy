/** Pages as they are written, byte by byte, against what the walker decodes. */
module PageLayout {
  import opened PageFile
  import opened Words
  import FL = Freelist
  import C = TrunkChain

  // ----- big-endian words

  function Word2(v: nat): seq<byte>
    requires v < 0x1_0000
  {
    [v / 0x100, v % 0x100]
  }

  function Word4(v: nat): seq<byte>
    requires v < 0x1_0000_0000
  {
    Word2(v / 0x1_0000) + Word2(v % 0x1_0000)
  }

  /** The bytes b lie in the file from position at on. */
  predicate HoldsAt(f: File, at: nat, b: seq<byte>) { at + |b| <= |f| && f[at..at + |b|] == b }

  lemma HeldByte(f: File, at: nat, b: seq<byte>, i: nat)
    requires HoldsAt(f, at, b) && i < |b|
    ensures f[at + i] == b[i]
  {
    assert f[at..at + |b|][i] == f[at + i];
  }

  /** Two bytes decode to the number they were written for, and to no other. */
  lemma Held2(f: File, at: nat, v: nat)
    requires at + 2 <= |f| && v < 0x1_0000
    ensures HoldsAt(f, at, Word2(v)) <==> Be16(f, at) == v
  {
    if HoldsAt(f, at, Word2(v)) {
      HeldByte(f, at, Word2(v), 0);
      HeldByte(f, at, Word2(v), 1);
    }
    if Be16(f, at) == v {
      assert f[at..at + 2] == [f[at], f[at + 1]];
    }
  }

  lemma HeldBoth(f: File, at: nat, a: seq<byte>, b: seq<byte>)
    ensures HoldsAt(f, at, a + b) <==> HoldsAt(f, at, a) && HoldsAt(f, at + |a|, b)
  {
    if at + |a| + |b| <= |f| {
      assert f[at..at + |a + b|] == f[at..at + |a|] + f[at + |a|..at + |a| + |b|];
    }
    if HoldsAt(f, at, a + b) {
      assert f[at..at + |a|] == (a + b)[..|a|] == a;
      assert f[at + |a|..at + |a| + |b|] == (a + b)[|a|..] == b;
    }
  }

  lemma Held4(f: File, at: nat, v: nat)
    requires at + 4 <= |f| && v < 0x1_0000_0000
    ensures HoldsAt(f, at, Word4(v)) <==> Be32(f, at) == v
  {
    HeldBoth(f, at, Word2(v / 0x1_0000), Word2(v % 0x1_0000));
    Held2(f, at, v / 0x1_0000);
    Held2(f, at + 2, v % 0x1_0000);
    Halves(Be16(f, at), Be16(f, at + 2), v);
  }

  lemma Halves(hi: nat, lo: nat, v: nat)
    requires lo < 0x1_0000
    ensures 0x1_0000 * hi + lo == v <==> hi == v / 0x1_0000 && lo == v % 0x1_0000
  {
  }

  // ----- B-tree pages

  /** Whole pages of 4096 bytes. */
  lemma InRangeIff(f: File, p: nat)
    ensures InRange(f, p) <==> p >= 1 && 4096 * p <= |f|
  {
  }

  /** A page of the kinds 2 and 5: the cell count at 3, the right-most child at 8, two bytes for each cell
      from 12 on that say where it lies, and the child at the start of each cell. */
  predicate InteriorAt(f: File, at: nat, kind: byte, cells: seq<nat>, children: seq<nat>, right: nat) {
    && |cells| == |children| < 0x1_0000 && right < 0x1_0000_0000
    && HoldsAt(f, at, [kind]) && HoldsAt(f, at + 3, Word2(|cells|)) && HoldsAt(f, at + 8, Word4(right))
    && forall i: nat :: i < |cells| ==>
                          && cells[i] < 0x1_0000 && children[i] < 0x1_0000_0000
                          && HoldsAt(f, at + 12 + 2 * i, Word2(cells[i]))
                          && HoldsAt(f, at + cells[i], Word4(children[i]))
  }

  lemma KindOf(f: File, p: nat, kind: byte)
    requires p >= 1 && 4096 * p <= |f| && HoldsAt(f, 4096 * (p - 1), [kind])
    ensures InRange(f, p) && (Interior(f, p) <==> kind == 2 || kind == 5)
  {
    HeldByte(f, 4096 * (p - 1), [kind], 0);
  }

  lemma CellOf(f: File, p: nat, i: nat, cell: nat, child: nat)
    requires InRange(f, p) && Interior(f, p) && cell < 0x1_0000 && child < 0x1_0000_0000
    requires HoldsAt(f, 4096 * (p - 1) + 12 + 2 * i, Word2(cell)) && HoldsAt(f, 4096 * (p - 1) + cell, Word4(child))
    ensures CellReadable(f, p, i) && CellChild(f, p, i) == child
  {
    Held2(f, 4096 * (p - 1) + 12 + 2 * i, cell);
    Held4(f, 4096 * (p - 1) + cell, child);
  }

  /** On a page laid out like that, in any file, the walker reads exactly those children, cell by cell and
      the right-most one last. */
  lemma InteriorLayout(f: File, p: nat, kind: byte, cells: seq<nat>, children: seq<nat>, right: nat)
    requires p >= 1 && 4096 * p <= |f| && (kind == 2 || kind == 5)
    requires InteriorAt(f, 4096 * (p - 1), kind, cells, children, right)
    ensures InRange(f, p) && Readable(f, p) && Children(f, p) == children + [right]
  {
    KindOf(f, p, kind);
    Held2(f, 4096 * (p - 1) + 3, |cells|);
    Held4(f, 4096 * (p - 1) + 8, right);
    forall i: nat | i < |cells| ensures CellReadable(f, p, i) && CellChild(f, p, i) == children[i] {
      CellOf(f, p, i, cells[i], children[i]);
    }
    ChildrenAre(f, p, children, right);
  }

  lemma ChildrenAre(f: File, p: nat, children: seq<nat>, right: nat)
    requires InRange(f, p) && Interior(f, p) && CellCount(f, p) == |children| && RightMost(f, p) == right
    requires forall i: nat :: i < |children| ==> CellReadable(f, p, i) && CellChild(f, p, i) == children[i]
    ensures Readable(f, p) && Children(f, p) == children + [right]
  {
    assert CellChildren(f, p, |children|) == children;
  }

  /** A page of any other kind has no children. */
  lemma OtherLayout(f: File, p: nat, kind: byte)
    requires p >= 1 && 4096 * p <= |f| && kind != 2 && kind != 5 && HoldsAt(f, 4096 * (p - 1), [kind])
    ensures InRange(f, p) && Children(f, p) == []
  {
    KindOf(f, p, kind);
  }

  /** Cell pointer i and the child at its cell lie in the file. */
  predicate CellInside(f: File, at: nat, i: nat) {
    && at + 12 + 2 * i + 2 <= |f|
    && at + (256 * (f[at + 12 + 2 * i] as int) + f[at + 13 + 2 * i] as int) + 4 <= |f|
  }

  lemma CellInsideIff(f: File, p: nat, i: nat)
    requires InRange(f, p) && Interior(f, p)
    ensures CellReadable(f, p, i) <==> CellInside(f, 4096 * (p - 1), i)
  {
  }

  /** Reading a page stays inside the file exactly when every cell pointer does and, on the kinds 2 and 5,
      every child at a cell. */
  lemma ReadableIff(f: File, p: nat)
    requires p >= 1 && 4096 * p <= |f|
    ensures var at := 4096 * (p - 1);
            var n := 256 * (f[at + 3] as int) + f[at + 4] as int;
            && InRange(f, p)
            && (Readable(f, p) <==>
                if f[at] == 2 || f[at] == 5
                then forall i: nat :: i < n ==> CellInside(f, at, i)
                else n > 0 ==> at + 8 + 2 * n <= |f|)
  {
    var at := 4096 * (p - 1);
    var n := 256 * (f[at + 3] as int) + f[at + 4] as int;
    assert Offset(p) == at && CellCount(f, p) == n;
    if Interior(f, p) {
      forall i: nat | i < n ensures CellReadable(f, p, i) <==> CellInside(f, at, i) {
        CellInsideIff(f, p, i);
      }
    } else if n > 0 {
      assert CellReadable(f, p, n - 1) <==> at + 8 + 2 * n <= |f|;
    }
  }

  // ----- an interior page

  predicate Words32(ls: seq<nat>) { forall i :: 0 <= i < |ls| ==> ls[i] < 0x1_0000_0000 }

  /** Cell i of a page, counted from its end. */
  function CellAt(i: nat): int { 4096 - 4 * (i + 1) }

  predicate Fits(children: seq<nat>) { 12 + 6 * |children| <= 4096 && Words32(children) }

  function PageByte(kind: byte, children: seq<nat>, right: nat, i: nat): byte
    requires Fits(children) && right < 0x1_0000_0000
  {
    if i == 0 then kind
    else if 3 <= i < 5 then Word2(|children|)[i - 3]
    else if 8 <= i < 12 then Word4(right)[i - 8]
    else if 12 <= i < 12 + 2 * |children| then Word2(CellAt((i - 12) / 2))[(i - 12) % 2]
    else if 4096 - 4 * |children| <= i < 4096 then Word4(children[(4095 - i) / 4])[i % 4]
    else 0
  }

  /** A whole interior page, its cells packed from the end. */
  function InteriorPage(kind: byte, children: seq<nat>, right: nat): (b: seq<byte>)
    requires Fits(children) && right < 0x1_0000_0000
    ensures |b| == 4096
  {
    seq(4096, i requires 0 <= i < 4096 => PageByte(kind, children, right, i))
  }

  lemma PageHolds(f: File, at: nat, kind: byte, children: seq<nat>, right: nat, i: nat)
    requires Fits(children) && right < 0x1_0000_0000 && HoldsAt(f, at, InteriorPage(kind, children, right)) && i < 4096
    ensures f[at + i] == PageByte(kind, children, right, i)
  {
    HeldByte(f, at, InteriorPage(kind, children, right), i);
  }

  lemma HoldsTwo(f: File, at: nat, v: nat)
    requires v < 0x1_0000 && at + 2 <= |f| && f[at] == Word2(v)[0] && f[at + 1] == Word2(v)[1]
    ensures HoldsAt(f, at, Word2(v))
  {
    assert f[at..at + 2] == Word2(v);
  }

  lemma HoldsFour(f: File, at: nat, v: nat)
    requires v < 0x1_0000_0000 && at + 4 <= |f|
    requires f[at] == Word4(v)[0] && f[at + 1] == Word4(v)[1] && f[at + 2] == Word4(v)[2] && f[at + 3] == Word4(v)[3]
    ensures HoldsAt(f, at, Word4(v))
  {
    assert f[at..at + 4] == Word4(v);
  }

  lemma PointerBytes(kind: byte, children: seq<nat>, right: nat, i: nat)
    requires Fits(children) && right < 0x1_0000_0000 && i < |children|
    ensures PageByte(kind, children, right, 12 + 2 * i) == Word2(CellAt(i))[0]
    ensures PageByte(kind, children, right, 13 + 2 * i) == Word2(CellAt(i))[1]
  {
  }

  lemma ChildByte(kind: byte, children: seq<nat>, right: nat, i: nat, d: nat)
    requires Fits(children) && right < 0x1_0000_0000 && i < |children| && d < 4
    ensures PageByte(kind, children, right, CellAt(i) + d) == Word4(children[i])[d]
  {
    var k := CellAt(i) + d;
    assert (4095 - k) / 4 == i && k % 4 == d;
  }

  lemma PagePointer(f: File, at: nat, kind: byte, children: seq<nat>, right: nat, i: nat)
    requires Fits(children) && right < 0x1_0000_0000 && HoldsAt(f, at, InteriorPage(kind, children, right))
    requires i < |children|
    ensures HoldsAt(f, at + 12 + 2 * i, Word2(CellAt(i)))
  {
    PointerBytes(kind, children, right, i);
    HeldPair(f, at, kind, children, right, 12 + 2 * i, CellAt(i));
  }

  lemma HeldPair(f: File, at: nat, kind: byte, children: seq<nat>, right: nat, k: nat, v: nat)
    requires Fits(children) && right < 0x1_0000_0000 && HoldsAt(f, at, InteriorPage(kind, children, right))
    requires v < 0x1_0000 && k + 1 < 4096
    requires PageByte(kind, children, right, k) == Word2(v)[0] && PageByte(kind, children, right, k + 1) == Word2(v)[1]
    ensures HoldsAt(f, at + k, Word2(v))
  {
    PageHolds(f, at, kind, children, right, k);
    PageHolds(f, at, kind, children, right, k + 1);
    HoldsTwo(f, at + k, v);
  }

  lemma PageChild(f: File, at: nat, kind: byte, children: seq<nat>, right: nat, i: nat)
    requires Fits(children) && right < 0x1_0000_0000 && HoldsAt(f, at, InteriorPage(kind, children, right))
    requires i < |children|
    ensures HoldsAt(f, at + CellAt(i), Word4(children[i]))
  {
    forall d: nat | d < 4 ensures f[at + CellAt(i) + d] == Word4(children[i])[d] {
      PageHolds(f, at, kind, children, right, CellAt(i) + d);
      ChildByte(kind, children, right, i, d);
    }
    HoldsFour(f, at + CellAt(i), children[i]);
  }

  lemma PageHead(f: File, at: nat, kind: byte, children: seq<nat>, right: nat)
    requires Fits(children) && right < 0x1_0000_0000 && HoldsAt(f, at, InteriorPage(kind, children, right))
    ensures HoldsAt(f, at, [kind]) && HoldsAt(f, at + 3, Word2(|children|)) && HoldsAt(f, at + 8, Word4(right))
  {
    PageHolds(f, at, kind, children, right, 0);
    assert f[at..at + 1] == [kind];
    PageHolds(f, at, kind, children, right, 3);
    PageHolds(f, at, kind, children, right, 4);
    HoldsTwo(f, at + 3, |children|);
    PageHolds(f, at, kind, children, right, 8);
    PageHolds(f, at, kind, children, right, 9);
    PageHolds(f, at, kind, children, right, 10);
    PageHolds(f, at, kind, children, right, 11);
    HoldsFour(f, at + 8, right);
  }

  /** Round trip: the walker reads an encoded page back, wherever in a file it stands. */
  lemma PageRoundTrip(f: File, p: nat, kind: byte, children: seq<nat>, right: nat)
    requires p >= 1 && (kind == 2 || kind == 5) && Fits(children) && right < 0x1_0000_0000
    requires HoldsAt(f, 4096 * (p - 1), InteriorPage(kind, children, right))
    ensures InRange(f, p) && Readable(f, p) && Children(f, p) == children + [right]
  {
    var at := 4096 * (p - 1);
    var cells := seq(|children|, i requires 0 <= i < |children| => CellAt(i));
    PageHead(f, at, kind, children, right);
    forall i: nat | i < |cells|
      ensures HoldsAt(f, at + 12 + 2 * i, Word2(cells[i])) && HoldsAt(f, at + cells[i], Word4(children[i]))
    {
      PagePointer(f, at, kind, children, right, i);
      PageChild(f, at, kind, children, right, i);
    }
    InteriorLayout(f, p, kind, cells, children, right);
  }

  // ----- freelist trunks

  function WordList(ls: seq<nat>): (b: seq<byte>)
    requires Words32(ls)
    ensures |b| == 4 * |ls|
  {
    if ls == [] then [] else WordList(ls[..|ls| - 1]) + Word4(ls[|ls| - 1])
  }

  ghost predicate Reads(f: File, at: nat, ls: seq<nat>)
    requires at + 4 * |ls| <= |f|
  {
    forall i :: 0 <= i < |ls| ==> Be32(f, at + 4 * i) == ls[i]
  }

  lemma ReadsNext(f: File, at: nat, ls: seq<nat>, v: nat)
    requires at + 4 * |ls| + 4 <= |f|
    ensures Reads(f, at, ls + [v]) <==> Reads(f, at, ls) && Be32(f, at + 4 * |ls|) == v
  {
    var all := ls + [v];
    if Reads(f, at, all) {
      assert all[|ls|] == v;
      forall i | 0 <= i < |ls| ensures Be32(f, at + 4 * i) == ls[i] { assert all[i] == ls[i]; }
    }
  }

  lemma WordListNext(ls: seq<nat>, v: nat)
    requires Words32(ls) && v < 0x1_0000_0000
    ensures Words32(ls + [v]) && WordList(ls + [v]) == WordList(ls) + Word4(v)
  {
    assert (ls + [v])[..|ls|] == ls;
  }

  lemma HeldNext(f: File, at: nat, to: nat, ls: seq<nat>, v: nat, b: seq<byte>)
    requires to == at + 4 * |ls| && to + 4 <= |f| && v < 0x1_0000_0000 && |b| == 4 * |ls|
    requires HoldsAt(f, at, b) <==> Reads(f, at, ls)
    ensures HoldsAt(f, at, b + Word4(v)) <==> Reads(f, at, ls + [v])
  {
    HeldBoth(f, at, b, Word4(v));
    Held4(f, to, v);
    ReadsNext(f, at, ls, v);
  }

  lemma {:induction false} HeldList(f: File, at: nat, ls: seq<nat>)
    requires at + 4 * |ls| <= |f| && Words32(ls)
    ensures HoldsAt(f, at, WordList(ls)) <==> Reads(f, at, ls)
  {
    if ls == [] {
    } else {
      var n := |ls| - 1;
      HeldList(f, at, ls[..n]);
      HeldNext(f, at, at + 4 * n, ls[..n], ls[n], WordList(ls[..n]));
      WordListNext(ls[..n], ls[n]);
      assert ls == ls[..n] + [ls[n]];
    }
  }

  /** A trunk as it is written: the next trunk, the number of leaves, the leaves. */
  function TrunkBytes(next: nat, leaves: seq<nat>): (b: seq<byte>)
    requires next < 0x1_0000_0000 && Words32(leaves) && |leaves| < 0x1_0000_0000
    ensures |b| == 8 + 4 * |leaves|
  {
    Word4(next) + (Word4(|leaves|) + WordList(leaves))
  }

  lemma TrunkHeld(f: File, at: nat, next: nat, leaves: seq<nat>)
    requires at + 8 + 4 * |leaves| <= |f|
    requires next < 0x1_0000_0000 && Words32(leaves) && |leaves| < 0x1_0000_0000
    ensures HoldsAt(f, at, TrunkBytes(next, leaves)) <==>
            Be32(f, at) == next && Be32(f, at + 4) == |leaves| && Reads(f, at + 8, leaves)
  {
    HeldBoth(f, at, Word4(next), Word4(|leaves|) + WordList(leaves));
    HeldBoth(f, at + 4, Word4(|leaves|), WordList(leaves));
    Held4(f, at, next);
    Held4(f, at + 4, |leaves|);
    HeldList(f, at + 8, leaves);
  }

  /** The walk takes page h in as the trunk (next, leaves) exactly when that trunk is what is written from
      the start of the page on, and fits it. */
  lemma TrunkIff(f: File, h: nat, next: nat, leaves: seq<nat>)
    requires next < 0x1_0000_0000 && Words32(leaves) && |leaves| < 0x1_0000_0000
    ensures h in FL.TrunksOf(f) && FL.TrunksOf(f)[h] == C.Trunk(next, leaves) <==>
            h >= 1 && 8 + 4 * |leaves| <= 4096 && HoldsAt(f, 4096 * (h - 1), TrunkBytes(next, leaves))
  {
    FL.TrunkInMap(f, h);
    if h >= 1 && 4096 * (h - 1) + 8 + 4 * |leaves| <= |f| {
      TrunkHeld(f, 4096 * (h - 1), next, leaves);
      WalkableAt(f, h, leaves);
    }
  }

  lemma WalkableAt(f: File, h: nat, leaves: seq<nat>)
    requires h >= 1 && 4096 * (h - 1) + 8 + 4 * |leaves| <= |f|
    ensures FL.Walkable(f, h) && FL.Leaves(f, h) == leaves <==>
            && 8 + 4 * |leaves| <= 4096
            && Be32(f, 4096 * (h - 1) + 4) == |leaves| && Reads(f, 4096 * (h - 1) + 8, leaves)
  {
    if Be32(f, 4096 * (h - 1) + 4) == |leaves| && 8 + 4 * |leaves| <= 4096 {
      LeavesAre(f, h, leaves);
    }
  }

  lemma LeavesAre(f: File, h: nat, leaves: seq<nat>)
    requires FL.Walkable(f, h) && FL.LeafCount(f, h) == |leaves| && 4096 * (h - 1) + 8 + 4 * |leaves| <= |f|
    ensures FL.Leaves(f, h) == leaves <==> Reads(f, 4096 * (h - 1) + 8, leaves)
  {
    var ls := FL.Leaves(f, h);
    forall i | 0 <= i < |leaves| ensures ls[i] == Be32(f, 4096 * (h - 1) + 8 + 4 * i) {}
  }

  /** Where the chain walk stops and why, in bytes: after at most 100000 trunks, at page 0, at a trunk that
      claims more leaves than a page holds, or at one that does not lie in the file as far as it is read. */
  lemma StopsWhere(f: File, head: nat, hs: seq<nat>, stop: nat, end: FL.End)
    requires FL.EndLaw(f, head, hs, stop, end)
    ensures |hs| <= 100_000
    ensures end.Ended? <==> stop == 0
    ensures end.ChainLoop? <==> |hs| == 100_000 && stop != 0
    ensures stop != 0 && !end.ChainLoop? ==>
              var at := 4096 * (stop - 1);
              if at + 8 > |f| then end.Panicked?
              else if 8 + 4 * Be32(f, at + 4) > 4096 then end == FL.Overfull(stop)
              else end.Panicked? && at + 8 + 4 * Be32(f, at + 4) > |f|
  {
    if stop > 0 { TrunkSpace(f, stop); }
  }

  lemma TrunkSpace(f: File, h: nat)
    requires h >= 1
    ensures var at := 4096 * (h - 1);
            && (FL.HeaderReadable(f, h) <==> at + 8 <= |f|)
            && (at + 8 <= |f| ==> (FL.FitsPage(f, h) <==> 8 + 4 * Be32(f, at + 4) <= 4096))
            && (at + 8 <= |f| ==> (FL.Walkable(f, h) <==>
                                   8 + 4 * Be32(f, at + 4) <= 4096 && at + 8 + 4 * Be32(f, at + 4) <= |f|))
  {
  }
}
