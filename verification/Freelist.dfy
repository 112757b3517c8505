/** The walk of the freelist trunk chain, with its iteration guard. */
module Freelist {
  import opened PageFile
  import opened Words
  import C = TrunkChain

  datatype End =
    | Ended                       // the chain reached page 0
    | ChainLoop                   // more than GUARD trunks
    | Overfull(trunk: nat)        // a trunk claims more leaves than fit on a page
    | Panicked                    // a read outside the file

  // ----- one trunk page

  predicate HeaderReadable(f: File, h: nat) {
    h >= 1 && Offset(h) + 8 <= |f|
  }

  function NextTrunk(f: File, h: nat): nat
    requires HeaderReadable(f, h)
  {
    Be32(f, Offset(h))
  }

  function LeafCount(f: File, h: nat): nat
    requires HeaderReadable(f, h)
  {
    Be32(f, Offset(h) + 4)
  }

  predicate FitsPage(f: File, h: nat)
    requires HeaderReadable(f, h)
  {
    8 + LeafCount(f, h) * 4 <= PAGE_SIZE
  }

  /** The walk takes in the whole of trunk h: it is not 0, fits its page and lies in the file. */
  predicate Walkable(f: File, h: nat) {
    && HeaderReadable(f, h)
    && FitsPage(f, h)
    && Offset(h) + 8 + LeafCount(f, h) * 4 <= |f|
  }

  function Leaves(f: File, h: nat): (ls: seq<nat>)
    requires Walkable(f, h)
  {
    seq(LeafCount(f, h), i requires 0 <= i < LeafCount(f, h) => Be32(f, Offset(h) + 8 + i * 4))
  }

  /** A trunk header fits in n bytes only up to this page number. */
  function TrunkLimit(n: nat): nat {
    if n < 8 then 0 else (n - 8) / PAGE_SIZE + 1
  }

  /** The trunks of the file. */
  ghost function TrunksOf(f: File): C.Trunks {
    map h: nat | 1 <= h <= TrunkLimit(|f|) && Walkable(f, h) :: C.Trunk(NextTrunk(f, h), Leaves(f, h))
  }

  lemma TrunkInMap(f: File, h: nat)
    ensures h in TrunksOf(f) <==> Walkable(f, h)
    ensures Walkable(f, h) ==> TrunksOf(f)[h] == C.Trunk(NextTrunk(f, h), Leaves(f, h))
  {
    if Walkable(f, h) {
      assert (h - 1) * PAGE_SIZE + 8 <= |f|;
    }
  }

  lemma {:induction false} TrunkMapSize(keys: set<nat>, n: nat)
    requires forall h :: h in keys ==> 1 <= h <= n
    ensures |keys| <= n
  {
    if n == 0 {
      assert keys == {};
    } else {
      TrunkMapSize(keys - {n}, n - 1);
      assert |keys| <= |keys - {n}| + 1;
    }
  }

  /** At most TrunkLimit pages can be trunks. */
  lemma FewTrunks(f: File)
    ensures |TrunksOf(f)| <= TrunkLimit(|f|)
  {
    TrunkMapSize(TrunksOf(f).Keys, TrunkLimit(|f|));
  }

  /** Exactly how far the run got, and why it stopped there. */
  ghost predicate EndLaw(f: File, head: nat, hs: seq<nat>, stop: nat, end: End) {
    && C.Follows(TrunksOf(f), head, hs, stop)
    && |hs| <= C.GUARD
    && match end
       case Ended => stop == 0
       case ChainLoop => |hs| == C.GUARD && stop != 0
       case Overfull(t) => |hs| < C.GUARD && t == stop && HeaderReadable(f, stop) && !FitsPage(f, stop)
       case Panicked =>
         && |hs| < C.GUARD && stop != 0 && !Walkable(f, stop)
         && (HeaderReadable(f, stop) ==> FitsPage(f, stop))
  }

  lemma NotLonger(f: File, head: nat, hs: seq<nat>, stop: nat, end: End, hs': seq<nat>, stop': nat, end': End)
    requires EndLaw(f, head, hs, stop, end) && EndLaw(f, head, hs', stop', end')
    ensures |hs'| <= |hs|
  {
    TrunkInMap(f, stop);
    if |hs| < C.GUARD {
      C.StopsThere(TrunksOf(f), head, hs, stop, hs', stop');
    }
  }

  /** The file and the head of the chain determine the run. */
  lemma EndIsUnique(f: File, head: nat, hs: seq<nat>, stop: nat, end: End, hs': seq<nat>, stop': nat, end': End)
    requires EndLaw(f, head, hs, stop, end) && EndLaw(f, head, hs', stop', end')
    ensures hs == hs' && stop == stop' && end == end'
  {
    NotLonger(f, head, hs, stop, end, hs', stop', end');
    NotLonger(f, head, hs', stop', end', hs, stop, end);
    C.SameChain(TrunksOf(f), head, hs, stop, hs', stop');
  }

  // ----- the walk

  /** Adds the leaves of one trunk to the free set, reporting every one already there. */
  method AddLeaves(f: File, h: nat, free0: set<nat>, twice0: seq<nat>)
    returns (free: set<nat>, twice: seq<nat>)
    requires Walkable(f, h)
    ensures C.TakenIn(free0, twice0, Leaves(f, h), free, twice)
  {
    free, twice := free0, twice0;
    ghost var ls := Leaves(f, h);
    var k := LeafCount(f, h);
    var i := 0;
    C.NoneTaken(free0, twice0, ls);
    while i < k
      invariant i <= k == |ls|
      invariant C.TakenUpTo(free0, twice0, ls, i, free, twice)
    {
      var leaf := Be32(f, Offset(h) + 8 + i * 4);
      C.LeafAt(free0, twice0, ls, i, leaf, free, twice);
      if leaf in free {
        twice := twice + [leaf];
      }
      free := free + {leaf};
      i := i + 1;
    }
    C.AllTaken(free0, twice0, ls, free, twice);
  }

  /** Walks the chain from head0. The result is the exact account of the trunks taken in: which
      they are, how the run ended, and where every listed page number went. */
  method WalkFreelist(f: File, head0: nat)
    returns (end: End, free: set<nat>, trunkTwice: seq<nat>, leafTwice: seq<nat>, hs: seq<nat>, head: nat)
    ensures EndLaw(f, head0, hs, head, end)
    ensures C.Account(TrunksOf(f), hs, free, trunkTwice, leafTwice)
  {
    ghost var m := TrunksOf(f);
    free, trunkTwice, leafTwice, hs, head := {}, [], [], [], head0;
    var guard: nat := 0;
    while head != 0
      invariant guard == |hs| <= C.GUARD && C.Follows(m, head0, hs, head)
      invariant C.Account(m, hs, free, trunkTwice, leafTwice)
      decreases C.GUARD - guard
    {
      TrunkInMap(f, head);
      guard := guard + 1;
      if guard > C.GUARD {
        end := ChainLoop;
        return;
      }
      if !HeaderReadable(f, head) {
        end := Panicked;
        return;
      }
      if !FitsPage(f, head) {
        end := Overfull(head);
        return;
      }
      if !Walkable(f, head) {
        end := Panicked;
        return;
      }
      ghost var free0, trunkTwice0, leafTwice0 := free, trunkTwice, leafTwice;
      if head in free {
        trunkTwice := trunkTwice + [head];
      }
      free, leafTwice := AddLeaves(f, head, free + {head}, leafTwice);
      C.AccountGrows(m, hs, head, free0, trunkTwice0, leafTwice0, free, trunkTwice, leafTwice);
      C.FollowsOn(m, head0, hs, head);
      hs := hs + [head];
      head := NextTrunk(f, head);
    }
    end := Ended;
  }

  // ----- what "freelist chain loop!" means

  /** Page 1 of a file that opens is no trunk: its magic reads as a leaf count beyond any page. */
  lemma FirstPageNoTrunk(f: File)
    requires Openable(f)
    ensures 1 !in TrunksOf(f)
  {
    OpenableTop(f);
    TrunkInMap(f, 1);
  }

  /** The file has room for fewer than GUARD trunks. */
  predicate FewPositions(f: File) {
    TrunkLimit(|f|) < C.GUARD || (Openable(f) && TrunkLimit(|f|) == C.GUARD)
  }

  lemma FewPositionsFewTrunks(f: File)
    requires FewPositions(f)
    ensures |TrunksOf(f)| < C.GUARD
  {
    FewTrunks(f);
    if TrunkLimit(|f|) == C.GUARD {
      FirstPageNoTrunk(f);
      TrunkMapSize(TrunksOf(f).Keys + {1}, C.GUARD);
    }
  }

  /** An endless chain always ends in the loop line. With fewer than GUARD trunk positions the line
      also means that the chain is endless. */
  lemma LoopReport(f: File, head: nat, hs: seq<nat>, stop: nat, end: End)
    requires EndLaw(f, head, hs, stop, end)
    ensures C.Endless(TrunksOf(f), head) ==> end.ChainLoop?
    ensures end.ChainLoop? && FewPositions(f) ==> C.Endless(TrunksOf(f), head)
  {
    TrunkInMap(f, stop);
    if end.ChainLoop? && FewPositions(f) {
      FewPositionsFewTrunks(f);
      C.LongIsEndless(TrunksOf(f), head, hs, stop);
    }
  }

  /** Before the loop line such a file has got a line for a trunk met twice. */
  lemma LoopIsPreceded(f: File, head: nat, hs: seq<nat>, stop: nat,
                       free: set<nat>, trunkTwice: seq<nat>, leafTwice: seq<nat>)
    requires EndLaw(f, head, hs, stop, ChainLoop) && C.Account(TrunksOf(f), hs, free, trunkTwice, leafTwice)
    requires FewPositions(f)
    ensures trunkTwice != []
  {
    FewPositionsFewTrunks(f);
    C.LoopIsReported(TrunksOf(f), hs, free, trunkTwice, leafTwice);
  }

  ghost predicate LineIsExact(f: File, head: nat, end: End) {
    end.ChainLoop? <==> C.Endless(TrunksOf(f), head)
  }

  /** On all byte sequences of length n the loop line is printed exactly when the chain is endless. */
  ghost predicate LoopLineExact(n: nat) {
    forall f: File, hs: seq<nat>, stop: nat, end: End ::
      |f| == n >= 36 && EndLaw(f, Be32(f, 32), hs, stop, end) ==> LineIsExact(f, Be32(f, 32), end)
  }

  /** The same on all files of length n that open. */
  ghost predicate OpenableLineExact(n: nat) {
    forall f: File, hs: seq<nat>, stop: nat, end: End ::
      |f| == n && Openable(f) && EndLaw(f, Be32(f, 32), hs, stop, end) ==> LineIsExact(f, Be32(f, 32), end)
  }

  // ----- a file whose chain is long and ends

  /** Page 1 of an empty database in the SQLite format: magic, page size, and the schema's leaf. */
  function HeaderByte(i: nat): byte {
    if i < 16 then SQLITE_MAGIC[i] else if i == 16 then 0x10 else if i == 100 then 0x0D else 0
  }

  /** Byte d of a page that starts with the number v. */
  function WordByte(v: nat, d: nat): byte
    requires v < 0x100_0000
  {
    if d == 1 then v / 0x1_0000 else if d == 2 then v / 256 % 256 else if d == 3 then v % 256 else 0
  }

  /** The chain runs through the pages first, first + 1, .. first + GUARD. */
  function Link(first: byte, h: nat): (v: nat)
    ensures v < 0x100_0000
  {
    if h < first + C.GUARD then h + 1 else 0
  }

  /** Before first lies a header. */
  function ChainByte(first: byte, i: nat): byte {
    var h := i / PAGE_SIZE + 1;
    if i == 35 then first
    else if h < first then HeaderByte(i)
    else WordByte(Link(first, h), i % PAGE_SIZE)
  }

  ghost function ChainFile(first: byte, n: nat): (f: File)
    ensures |f| == n
  {
    seq(n, i requires 0 <= i < n => ChainByte(first, i))
  }

  lemma ChainAt(first: byte, n: nat, h: nat, d: nat)
    requires h >= first && h >= 1 && d < 8 && Offset(h) + 8 <= n
    ensures ChainFile(first, n)[Offset(h) + d] == WordByte(Link(first, h), d)
  {
    assert (Offset(h) + d) / PAGE_SIZE == h - 1 && (Offset(h) + d) % PAGE_SIZE == d;
  }

  lemma Word(f: File, at: nat, v: nat)
    requires at + 4 <= |f| && v < 0x100_0000 && f[at] == 0
    requires f[at + 1] == WordByte(v, 1) && f[at + 2] == WordByte(v, 2) && f[at + 3] == WordByte(v, 3)
    ensures Be32(f, at) == v
  {
    ThreeBytes(v, v / 256);
  }

  lemma ThreeBytes(v: nat, w: nat)
    requires v < 0x100_0000 && w == v / 256
    ensures w / 256 == v / 0x1_0000 && v == 256 * (256 * (w / 256) + w % 256) + v % 256
  {
  }

  lemma NextInChain(first: byte, n: nat, h: nat)
    requires h >= first && h >= 1 && Offset(h) + 8 <= n
    ensures Be32(ChainFile(first, n), Offset(h)) == Link(first, h)
  {
    ChainAt(first, n, h, 0);
    ChainAt(first, n, h, 1);
    ChainAt(first, n, h, 2);
    ChainAt(first, n, h, 3);
    Word(ChainFile(first, n), Offset(h), Link(first, h));
  }

  lemma ZeroAt(first: byte, n: nat, h: nat, d: nat)
    requires h >= first && h >= 1 && 4 <= d < 8 && Offset(h) + 8 <= n
    ensures ChainFile(first, n)[Offset(h) + d] == 0
  {
    ChainAt(first, n, h, d);
  }

  lemma NoLeafInChain(first: byte, n: nat, h: nat)
    requires h >= first && h >= 1 && Offset(h) + 8 <= n
    ensures Be32(ChainFile(first, n), Offset(h) + 4) == 0
  {
    ZeroAt(first, n, h, 4);
    ZeroAt(first, n, h, 5);
    ZeroAt(first, n, h, 6);
    ZeroAt(first, n, h, 7);
    Word(ChainFile(first, n), Offset(h) + 4, 0);
  }

  lemma ChainPage(first: byte, n: nat, h: nat)
    requires h >= first && h >= 1 && Offset(h) + 8 <= n
    ensures Walkable(ChainFile(first, n), h)
    ensures NextTrunk(ChainFile(first, n), h) == Link(first, h)
  {
    NextInChain(first, n, h);
    NoLeafInChain(first, n, h);
  }

  lemma ChainHead(first: byte, n: nat)
    requires n >= 36 && first <= 2
    ensures Be32(ChainFile(first, n), 32) == first
  {
    var f := ChainFile(first, n);
    assert f[32] == 0 && f[33] == 0 && f[34] == 0 && f[35] == first;
    Word(f, 32, first);
  }

  /** The chain from page 2 leaves page 1 to a header, so such a file opens. */
  lemma ChainOpens(n: nat)
    requires n >= 100
    ensures Openable(ChainFile(2, n))
  {
    var f := ChainFile(2, n);
    forall i | 0 <= i < 16 ensures f[..16][i] == SQLITE_MAGIC[i] {
      assert f[i] == ChainByte(2, i) == HeaderByte(i);
    }
    assert f[..16] == SQLITE_MAGIC;
  }

  lemma ChainLink(first: byte, n: nat, h: nat)
    requires 1 <= first <= h < first + C.GUARD && Offset(h) + 8 <= n
    ensures h in TrunksOf(ChainFile(first, n)) && TrunksOf(ChainFile(first, n))[h].next == h + 1
  {
    ChainPage(first, n, h);
    TrunkInMap(ChainFile(first, n), h);
  }

  lemma ChainFollows(first: byte, n: nat, stop: nat)
    requires first >= 1 && TrunkLimit(n) >= stop - 1 && stop == first + C.GUARD
    ensures C.Follows(TrunksOf(ChainFile(first, n)), first, C.PagesFrom(first, C.GUARD), stop)
  {
    forall h: nat | first <= h < stop
      ensures h in TrunksOf(ChainFile(first, n)) && TrunksOf(ChainFile(first, n))[h].next == h + 1
    {
      ChainLink(first, n, h);
    }
    C.FollowsPages(TrunksOf(ChainFile(first, n)), first, C.GUARD, stop);
  }

  lemma ChainStops(first: byte, n: nat, stop: nat)
    requires first >= 1 && stop == first + C.GUARD
    ensures var m := TrunksOf(ChainFile(first, n));
            0 !in m && (stop in m ==> m[stop].next == 0)
  {
    var f := ChainFile(first, n);
    TrunkInMap(f, 0);
    TrunkInMap(f, stop);
    if Walkable(f, stop) { ChainPage(first, n, stop); }
  }

  /** The chain of that file ends right after GUARD or GUARD + 1 trunks. */
  lemma ChainEnds(first: byte, n: nat, hs: seq<nat>, stop: nat)
    requires first >= 1 && stop == first + C.GUARD && C.Follows(TrunksOf(ChainFile(first, n)), first, hs, stop)
    ensures !C.Endless(TrunksOf(ChainFile(first, n)), first)
  {
    var m := TrunksOf(ChainFile(first, n));
    ChainStops(first, n, stop);
    if stop in m {
      C.FollowsOn(m, first, hs, stop);
    }
  }

  lemma MisleadingEnd(f: File, head: nat, hs: seq<nat>, stop: nat)
    requires C.Follows(TrunksOf(f), head, hs, stop) && |hs| == C.GUARD && stop != 0 && !C.Endless(TrunksOf(f), head)
    ensures EndLaw(f, head, hs, stop, ChainLoop) && !LineIsExact(f, head, ChainLoop)
  {
  }

  /** The walk of that file ends in the loop line although its chain ends. */
  lemma ChainMisleads(first: byte, n: nat, stop: nat) returns (hs: seq<nat>)
    requires 1 <= first <= 2 && TrunkLimit(n) >= stop - 1 && stop == first + C.GUARD
    ensures n >= 100
    ensures EndLaw(ChainFile(first, n), Be32(ChainFile(first, n), 32), hs, stop, ChainLoop)
    ensures !LineIsExact(ChainFile(first, n), Be32(ChainFile(first, n), 32), ChainLoop)
  {
    hs := C.PagesFrom(first, C.GUARD);
    ChainFollows(first, n, stop);
    ChainEnds(first, n, hs, stop);
    ChainHead(first, n);
    MisleadingEnd(ChainFile(first, n), first, hs, stop);
  }

  /** Over arbitrary bytes the loop line is exact for a length precisely when that length leaves no room
      for a trunk on page 100000. */
  lemma LoopLineExactIff(n: nat)
    ensures LoopLineExact(n) <==> n < 409_595_912
  {
    assert TrunkLimit(n) < C.GUARD <==> n < 409_595_912;
    if TrunkLimit(n) < C.GUARD {
      forall f: File, hs: seq<nat>, stop: nat, end: End | |f| == n >= 36 && EndLaw(f, Be32(f, 32), hs, stop, end)
        ensures LineIsExact(f, Be32(f, 32), end)
      {
        LoopReport(f, Be32(f, 32), hs, stop, end);
      }
    } else {
      var hs := ChainMisleads(1, n, 1 + C.GUARD);
    }
  }

  /** Over files that open page 1 is never a trunk, and the line stays exact for one page more. */
  lemma OpenableLineExactIff(n: nat)
    ensures OpenableLineExact(n) <==> n < 409_600_008
  {
    assert TrunkLimit(n) <= C.GUARD <==> n < 409_600_008;
    if TrunkLimit(n) <= C.GUARD {
      forall f: File, hs: seq<nat>, stop: nat, end: End
        | |f| == n && Openable(f) && EndLaw(f, Be32(f, 32), hs, stop, end)
        ensures LineIsExact(f, Be32(f, 32), end)
      {
        LoopReport(f, Be32(f, 32), hs, stop, end);
      }
    } else {
      var hs := ChainMisleads(2, n, 2 + C.GUARD);
      ChainOpens(n);
    }
  }
}
