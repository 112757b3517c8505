/** The pointer graph of a file: which pages each page points at, with repetition. Nothing here
    is assumed about its shape. */
module PageGraph {

  /** Page p, counted from 1, has its child pointers at index p - 1. */
  type Graph = seq<seq<nat>>

  predicate InRange(g: Graph, p: nat) { 1 <= p <= |g| }

  function Kids(g: Graph, p: nat): seq<nat>
    requires InRange(g, p)
  {
    g[p - 1]
  }

  // ----- reachability: the reference the walk is measured against

  /** A chain of child pointers from root to p through in-range pages only. */
  ghost predicate IsChain(g: Graph, root: nat, p: nat, chain: seq<nat>) {
    && |chain| > 0 && chain[0] == root && chain[|chain| - 1] == p
    && (forall i :: 0 <= i < |chain| ==> InRange(g, chain[i]))
    && (forall i :: 0 <= i < |chain| - 1 ==> chain[i + 1] in Kids(g, chain[i]))
  }

  ghost predicate Reachable(g: Graph, root: nat, p: nat) {
    exists chain :: IsChain(g, root, p, chain)
  }

  lemma RootReachable(g: Graph, root: nat)
    requires InRange(g, root)
    ensures Reachable(g, root, root)
  {
    assert IsChain(g, root, root, [root]);
  }

  lemma ReachableInRange(g: Graph, root: nat, p: nat)
    requires Reachable(g, root, p)
    ensures InRange(g, p)
  {
  }

  lemma ChildReachable(g: Graph, root: nat, p: nat, c: nat)
    requires Reachable(g, root, p) && InRange(g, p) && InRange(g, c) && c in Kids(g, p)
    ensures Reachable(g, root, c)
  {
    var chain :| IsChain(g, root, p, chain);
    assert IsChain(g, root, c, chain + [c]);
  }

  ghost predicate Closed(g: Graph, s: set<nat>) {
    && (forall p :: p in s ==> InRange(g, p))
    && (forall p, c :: p in s && c in Kids(g, p) && InRange(g, c) ==> c in s)
  }

  /** A closed set that holds the root holds everything reachable. */
  lemma {:induction false} ClosedHoldsChain(g: Graph, root: nat, p: nat, chain: seq<nat>, s: set<nat>)
    requires IsChain(g, root, p, chain) && Closed(g, s) && root in s
    ensures p in s
    decreases |chain|
  {
    if |chain| == 1 {
    } else {
      var q := chain[|chain| - 2];
      assert chain[|chain| - 2 + 1] in Kids(g, q);
      assert IsChain(g, root, q, chain[..|chain| - 1]);
      ClosedHoldsChain(g, root, q, chain[..|chain| - 1], s);
    }
  }

  // ----- the child pointers held by a set of pages, with multiplicity

  ghost function PointersUpTo(g: Graph, s: set<nat>, n: nat): multiset<nat>
    requires n <= |g|
  {
    if n == 0 then multiset{} else PointersUpTo(g, s, n - 1) + Held(g, s, n)
  }

  /** What page n adds. */
  ghost function Held(g: Graph, s: set<nat>, n: nat): multiset<nat>
    requires InRange(g, n)
  {
    if n in s then multiset(Kids(g, n)) else multiset{}
  }

  ghost function Pointers(g: Graph, s: set<nat>): multiset<nat> {
    PointersUpTo(g, s, |g|)
  }

  /** How often c is a pointer of s and the new page p. */
  lemma {:induction false} PointersUpToAdd(g: Graph, s: set<nat>, p: nat, n: nat, c: nat, add: nat)
    requires n <= |g| && InRange(g, p) && p !in s && add == multiset(Kids(g, p))[c]
    ensures PointersUpTo(g, s + {p}, n)[c] == PointersUpTo(g, s, n)[c] + if p <= n then add else 0
  {
    if n == 0 {
    } else {
      PointersUpToAdd(g, s, p, n - 1, c, add);
      AddOnePage(g, s, s + {p}, p, n, c, add);
    }
  }

  lemma AddOnePage(g: Graph, s: set<nat>, s': set<nat>, p: nat, n: nat, c: nat, add: nat)
    requires 1 <= n <= |g| && InRange(g, p) && p !in s && s' == s + {p} && add == multiset(Kids(g, p))[c]
    requires PointersUpTo(g, s', n - 1)[c] == PointersUpTo(g, s, n - 1)[c] + if p <= n - 1 then add else 0
    ensures PointersUpTo(g, s', n)[c] == PointersUpTo(g, s, n)[c] + if p <= n then add else 0
  {
    PointersStep(g, s', n, c);
    PointersStep(g, s, n, c);
    HeldAdd(g, s, p, n, c, add);
  }

  lemma PointersStep(g: Graph, s: set<nat>, n: nat, c: nat)
    requires 1 <= n <= |g|
    ensures PointersUpTo(g, s, n)[c] == PointersUpTo(g, s, n - 1)[c] + Held(g, s, n)[c]
  {
  }

  lemma HeldAdd(g: Graph, s: set<nat>, p: nat, n: nat, c: nat, add: nat)
    requires InRange(g, n) && InRange(g, p) && p !in s && add == multiset(Kids(g, p))[c]
    ensures Held(g, s + {p}, n)[c] == Held(g, s, n)[c] + if p == n then add else 0
  {
  }

  lemma PointersAdd(g: Graph, s: set<nat>, p: nat)
    requires InRange(g, p) && p !in s
    ensures Pointers(g, s + {p}) == Pointers(g, s) + multiset(Kids(g, p))
  {
    forall c: nat ensures Pointers(g, s + {p})[c] == (Pointers(g, s) + multiset(Kids(g, p)))[c] {
      PointersUpToAdd(g, s, p, |g|, c, multiset(Kids(g, p))[c]);
    }
  }

  lemma {:induction false} PointersUpToEmpty(g: Graph, n: nat)
    requires n <= |g|
    ensures PointersUpTo(g, {}, n) == multiset{}
  {
    if n == 0 {
    } else {
      PointersUpToEmpty(g, n - 1);
    }
  }

  ghost predicate Holds(g: Graph, s: set<nat>, p: nat, c: nat) {
    p in s && InRange(g, p) && c in Kids(g, p)
  }

  ghost predicate HeldBelow(g: Graph, s: set<nat>, n: nat, c: nat) {
    exists p: nat :: p <= n && Holds(g, s, p, c)
  }

  lemma HeldBelowStep(g: Graph, s: set<nat>, n: nat, c: nat)
    requires n > 0
    ensures HeldBelow(g, s, n, c) <==> HeldBelow(g, s, n - 1, c) || Holds(g, s, n, c)
  {
  }

  /** A pointer is in the multiset exactly when some page of the set holds it. */
  lemma {:induction false} PointersUpToMember(g: Graph, s: set<nat>, n: nat, c: nat)
    requires n <= |g|
    ensures c in PointersUpTo(g, s, n) <==> HeldBelow(g, s, n, c)
  {
    if n == 0 {
    } else {
      PointersUpToMember(g, s, n - 1, c);
      HeldBelowStep(g, s, n, c);
      assert c in Held(g, s, n) <==> Holds(g, s, n, c);
    }
  }

  lemma PointerMember(g: Graph, s: set<nat>, c: nat)
    ensures c in Pointers(g, s) <==> exists p: nat :: Holds(g, s, p, c)
  {
    PointersUpToMember(g, s, |g|, c);
  }

  // ----- what one finished walk leaves behind

  /** The law of a finished walk: its seen set is what the root reaches, and the pages popped -
      reported out of range, reported twice, or seen - are the root and every pointer of a seen
      page, each with its multiplicity. */
  ghost predicate WalkLaw(g: Graph, root: nat, seen: set<nat>, outOfRange: seq<nat>, twice: seq<nat>) {
    && (forall p: nat :: p in seen <==> Reachable(g, root, p))
    && (forall p: nat :: p in outOfRange ==> !InRange(g, p))
    && (forall p: nat :: p in twice ==> p in seen)
    && multiset(outOfRange) + multiset(twice) + multiset(seen) == multiset{root} + Pointers(g, seen)
  }

  /** What holds whenever the walk is about to pop: the law above with the stack still to come. */
  ghost predicate Walking(g: Graph, root: nat, stack: seq<nat>, seen: set<nat>, outOfRange: seq<nat>, twice: seq<nat>) {
    && (forall p: nat :: p in seen ==> InRange(g, p) && Reachable(g, root, p))
    && (forall p: nat :: p in stack && InRange(g, p) ==> Reachable(g, root, p))
    && (forall p: nat :: p in outOfRange ==> !InRange(g, p))
    && (forall p: nat :: p in twice ==> p in seen)
    && multiset(outOfRange) + multiset(twice) + multiset(seen) + multiset(stack)
       == multiset{root} + Pointers(g, seen)
  }

  lemma WalkStarts(g: Graph, root: nat)
    ensures Walking(g, root, [root], {}, [], [])
  {
    PointersUpToEmpty(g, |g|);
    if InRange(g, root) { RootReachable(g, root); }
  }

  lemma SplitLast(s: seq<nat>)
    requires |s| > 0
    ensures s == s[..|s| - 1] + [s[|s| - 1]]
  {
  }

  lemma PopOutOfRange(g: Graph, root: nat, rest: seq<nat>, p: nat, seen: set<nat>,
                      outOfRange: seq<nat>, twice: seq<nat>)
    requires Walking(g, root, rest + [p], seen, outOfRange, twice) && !InRange(g, p)
    ensures Walking(g, root, rest, seen, outOfRange + [p], twice)
  {
    assert forall q: nat :: q in rest ==> q in rest + [p];
  }

  lemma PopTwice(g: Graph, root: nat, rest: seq<nat>, p: nat, seen: set<nat>, outOfRange: seq<nat>, twice: seq<nat>)
    requires Walking(g, root, rest + [p], seen, outOfRange, twice) && p in seen
    ensures Walking(g, root, rest, seen, outOfRange, twice + [p])
  {
    assert forall q: nat :: q in rest ==> q in rest + [p];
  }

  lemma PopFresh(g: Graph, root: nat, rest: seq<nat>, p: nat, seen: set<nat>, outOfRange: seq<nat>, twice: seq<nat>)
    requires Walking(g, root, rest + [p], seen, outOfRange, twice) && InRange(g, p) && p !in seen
    ensures Reachable(g, root, p)
    ensures Walking(g, root, rest + Kids(g, p), seen + {p}, outOfRange, twice)
    ensures Unseen(g, seen + {p}) < Unseen(g, seen)
  {
    assert p in rest + [p];
    assert forall q: nat :: q in rest ==> q in rest + [p];
    PointersAdd(g, seen, p);
    UnseenShrinks(g, seen, p);
    forall c | c in Kids(g, p) && InRange(g, c) ensures Reachable(g, root, c) {
      ChildReachable(g, root, p, c);
    }
    assert multiset(seen + {p}) == multiset(seen) + multiset{p};
    assert multiset(rest + [p]) == multiset(rest) + multiset{p};
    assert multiset(rest + Kids(g, p)) == multiset(rest) + multiset(Kids(g, p));
    assert multiset(outOfRange) + multiset(twice) + multiset(seen + {p}) + multiset(rest + Kids(g, p))
        == (multiset(outOfRange) + multiset(twice) + multiset(seen) + multiset(rest + [p])) + multiset(Kids(g, p))
        == multiset{root} + Pointers(g, seen + {p});
  }

  /** With nothing left to pop, the counting law alone makes the seen set closed under pointers. */
  lemma WalkEnds(g: Graph, root: nat, seen: set<nat>, outOfRange: seq<nat>, twice: seq<nat>)
    requires Walking(g, root, [], seen, outOfRange, twice)
    ensures WalkLaw(g, root, seen, outOfRange, twice)
  {
    var popped := multiset(outOfRange) + multiset(twice) + multiset(seen);
    var empty: seq<nat> := [];
    assert popped + multiset(empty) == popped == multiset{root} + Pointers(g, seen);
    forall p, c | p in seen && c in Kids(g, p) && InRange(g, c) ensures c in seen {
      PointerMember(g, seen, c);
      assert Holds(g, seen, p, c);
      assert c in popped;
    }
    assert root in popped;
    forall p: nat | Reachable(g, root, p) ensures p in seen {
      var chain :| IsChain(g, root, p, chain);
      assert InRange(g, chain[0]);
      ClosedHoldsChain(g, root, p, chain, seen);
    }
  }

  /** How many in-range pages are unseen: the first component of the walk's termination measure. */
  ghost function Unseen(g: Graph, seen: set<nat>): nat {
    |set p: nat | 1 <= p <= |g| && p !in seen|
  }

  lemma UnseenShrinks(g: Graph, seen: set<nat>, p: nat)
    requires InRange(g, p) && p !in seen
    ensures Unseen(g, seen + {p}) < Unseen(g, seen)
  {
    var before := set q: nat | 1 <= q <= |g| && q !in seen;
    var after := set q: nat | 1 <= q <= |g| && q !in seen + {p};
    assert after == before - {p} && p in before;
  }

  // ----- what the reports of a walk mean

  /** The number of child pointers held by the pages of s. */
  ghost function PointerTotal(g: Graph, s: set<nat>, n: nat): nat
    requires n <= |g|
  {
    if n == 0 then 0 else PointerTotal(g, s, n - 1) + if n in s then |Kids(g, n)| else 0
  }

  lemma {:induction false} PointersSize(g: Graph, s: set<nat>, n: nat)
    requires n <= |g|
    ensures |PointersUpTo(g, s, n)| == PointerTotal(g, s, n)
  {
    if n == 0 {
    } else {
      PointersSize(g, s, n - 1);
    }
  }

  /** One walk prints one line for every pointer too many. */
  lemma ReportCount(g: Graph, root: nat, seen: set<nat>, outOfRange: seq<nat>, twice: seq<nat>)
    requires WalkLaw(g, root, seen, outOfRange, twice)
    ensures |outOfRange| + |twice| == 1 + PointerTotal(g, seen, |g|) - |seen|
  {
    PointersSize(g, seen, |g|);
    assert |multiset(outOfRange) + multiset(twice) + multiset(seen)| == |multiset{root} + Pointers(g, seen)|;
  }

  /** Slot i of page p is its i-th child pointer. */
  datatype Slot = Slot(page: nat, index: nat)

  ghost predicate SlotInto(g: Graph, s: set<nat>, q: nat, t: Slot) {
    t.page in s && InRange(g, t.page) && t.index < |Kids(g, t.page)| && Kids(g, t.page)[t.index] == q
  }

  ghost function SlotsInto(g: Graph, s: set<nat>, q: nat, n: nat): set<Slot>
    requires n <= |g|
  {
    set p: nat, i: nat | p in s && 1 <= p <= n && i < |Kids(g, p)| && Kids(g, p)[i] == q :: Slot(p, i)
  }

  lemma {:induction false} Occurrences(k: seq<nat>, q: nat, m: nat)
    requires m <= |k|
    ensures |set i: nat | i < m && k[i] == q| == multiset(k[..m])[q]
  {
    var here := set i: nat | i < m && k[i] == q;
    if m == 0 {
    } else {
      Occurrences(k, q, m - 1);
      var before := set i: nat | i < m - 1 && k[i] == q;
      assert k[..m] == k[..m - 1] + [k[m - 1]];
      assert here == if k[m - 1] == q then before + {m - 1} else before;
    }
  }

  lemma PageSlots(g: Graph, p: nat, q: nat)
    requires InRange(g, p)
    ensures var here := set i: nat | i < |Kids(g, p)| && Kids(g, p)[i] == q :: Slot(p, i);
            |here| == multiset(Kids(g, p))[q]
  {
    var k := Kids(g, p);
    var idx := set i: nat | i < |k| && k[i] == q;
    var here := set i: nat | i < |k| && k[i] == q :: Slot(p, i);
    Occurrences(k, q, |k|);
    assert k[..|k|] == k;
    SameSize(p, idx);
    assert here == set i | i in idx :: Slot(p, i);
  }

  lemma {:induction false} SameSize(p: nat, idx: set<nat>)
    ensures |set i | i in idx :: Slot(p, i)| == |idx|
  {
    if idx == {} {
    } else {
      var i :| i in idx;
      SameSize(p, idx - {i});
      assert (set j | j in idx :: Slot(p, j)) == (set j | j in idx - {i} :: Slot(p, j)) + {Slot(p, i)};
    }
  }

  /** The slots of page n that hold q, if n is in s. */
  lemma SlotsStep(g: Graph, s: set<nat>, q: nat, n: nat)
    requires 1 <= n <= |g|
    ensures |SlotsInto(g, s, q, n)| == |SlotsInto(g, s, q, n - 1)| + Held(g, s, n)[q]
  {
    var all, before := SlotsInto(g, s, q, n), SlotsInto(g, s, q, n - 1);
    if n in s {
      var here := set i: nat | i < |Kids(g, n)| && Kids(g, n)[i] == q :: Slot(n, i);
      PageSlots(g, n, q);
      assert all == before + here;
      assert before !! here;
    } else {
      assert all == before;
    }
  }

  /** The multiplicity of q among the pointers of s is the number of slots that hold q. */
  lemma {:induction false} PointerSlots(g: Graph, s: set<nat>, q: nat, n: nat)
    requires n <= |g|
    ensures |SlotsInto(g, s, q, n)| == PointersUpTo(g, s, n)[q]
  {
    if n == 0 {
      assert SlotsInto(g, s, q, 0) == {};
    } else {
      PointerSlots(g, s, q, n - 1);
      SlotsStep(g, s, q, n);
    }
  }

  /** Per page: a seen page is reported twice once for every slot beyond its first arrival, and
      an out-of-range number is reported once for every slot that holds it. */
  lemma ReportsPerPage(g: Graph, root: nat, seen: set<nat>, outOfRange: seq<nat>, twice: seq<nat>, q: nat)
    requires WalkLaw(g, root, seen, outOfRange, twice)
    ensures var arrivals := |SlotsInto(g, seen, q, |g|)| + if q == root then 1 else 0;
            && (q in seen ==> arrivals == 1 + multiset(twice)[q])
            && (!InRange(g, q) ==> arrivals == multiset(outOfRange)[q])
  {
    PointerSlots(g, seen, q, |g|);
    var popped := multiset(outOfRange) + multiset(twice) + multiset(seen);
    assert popped[q] == (multiset{root} + Pointers(g, seen))[q];
    if q in seen {
      assert Reachable(g, root, q);
    } else {
      assert q !in multiset(twice);
    }
    if !InRange(g, q) {
      assert q !in seen;
    }
  }

  /** The pages of s form a tree under root: no pointer leaves the file, nothing points at the
      root, and exactly one slot points at every other page. */
  ghost predicate IsTree(g: Graph, root: nat, s: set<nat>) {
    && root in s
    && (forall p, c :: p in s && InRange(g, p) && c in Kids(g, p) ==> InRange(g, c))
    && SlotsInto(g, s, root, |g|) == {}
    && (forall q :: q in s && q != root ==> |SlotsInto(g, s, q, |g|)| == 1)
  }

  lemma SilentWalkIsTree(g: Graph, root: nat, seen: set<nat>, outOfRange: seq<nat>, twice: seq<nat>)
    requires WalkLaw(g, root, seen, outOfRange, twice) && outOfRange == [] && twice == []
    ensures IsTree(g, root, seen)
  {
    assert multiset(seen) == multiset{root} + Pointers(g, seen);
    assert root in multiset(seen);
    forall p, c | p in seen && InRange(g, p) && c in Kids(g, p) ensures InRange(g, c) {
      assert Holds(g, seen, p, c);
      PointerMember(g, seen, c);
      assert c in multiset(seen);
      assert Reachable(g, root, c);
    }
    forall q: nat | q in seen ensures |SlotsInto(g, seen, q, |g|)| == if q == root then 0 else 1 {
      ReportsPerPage(g, root, seen, outOfRange, twice, q);
    }
  }

  lemma StrayPointer(g: Graph, root: nat, seen: set<nat>, outOfRange: seq<nat>, twice: seq<nat>, q: nat)
    requires WalkLaw(g, root, seen, outOfRange, twice) && q in outOfRange
    ensures !InRange(g, q) && (q == root || exists p: nat :: Holds(g, seen, p, q))
  {
    assert q in multiset(outOfRange);
    assert q in multiset{root} + Pointers(g, seen);
    PointerMember(g, seen, q);
  }

  lemma TreeWalkIsSilent(g: Graph, root: nat, seen: set<nat>, outOfRange: seq<nat>, twice: seq<nat>)
    requires WalkLaw(g, root, seen, outOfRange, twice) && IsTree(g, root, seen)
    ensures outOfRange == [] && twice == []
  {
    if |outOfRange| > 0 {
      var q := outOfRange[0];
      StrayPointer(g, root, seen, outOfRange, twice, q);
      assert false;
    }
    if |twice| > 0 {
      var q := twice[0];
      assert q in multiset(twice);
      ReportsPerPage(g, root, seen, outOfRange, twice, q);
      assert false;
    }
  }

  /** A walk prints nothing exactly when what it walked is a tree. */
  lemma SilentIffTree(g: Graph, root: nat, seen: set<nat>, outOfRange: seq<nat>, twice: seq<nat>)
    requires WalkLaw(g, root, seen, outOfRange, twice)
    ensures outOfRange == [] && twice == [] <==> IsTree(g, root, seen)
  {
    if outOfRange == [] && twice == [] {
      SilentWalkIsTree(g, root, seen, outOfRange, twice);
    }
    if IsTree(g, root, seen) {
      TreeWalkIsSilent(g, root, seen, outOfRange, twice);
    }
  }

  lemma ChainStep(g: Graph, root: nat, p: nat, chain: seq<nat>, seen: set<nat>) returns (t: Slot)
    requires IsChain(g, root, p, chain) && |chain| > 1
    requires forall q: nat :: q in seen <==> Reachable(g, root, q)
    ensures t in SlotsInto(g, seen, p, |g|) && t.page == chain[|chain| - 2]
    ensures IsChain(g, root, t.page, chain[..|chain| - 1])
  {
    var q := chain[|chain| - 2];
    assert chain[|chain| - 2 + 1] in Kids(g, q);
    assert IsChain(g, root, q, chain[..|chain| - 1]);
    assert Reachable(g, root, q);
    var i :| 0 <= i < |Kids(g, q)| && Kids(g, q)[i] == p;
    t := Slot(q, i);
  }

  /** After a silent walk the chain of pointers to each page is unique, so no page is on a cycle
      and no two parents share a page. */
  lemma {:induction false} UniqueChain(g: Graph, root: nat, seen: set<nat>, p: nat, a: seq<nat>, b: seq<nat>)
    requires forall q: nat :: q in seen <==> Reachable(g, root, q)
    requires IsTree(g, root, seen) && IsChain(g, root, p, a) && IsChain(g, root, p, b)
    ensures a == b
    decreases |a|
  {
    if |a| > 1 {
      var s := ChainStep(g, root, p, a, seen);
      if |b| > 1 {
        var t := ChainStep(g, root, p, b, seen);
        assert Reachable(g, root, p);
        OneElement(SlotsInto(g, seen, p, |g|), s, t);
        UniqueChain(g, root, seen, s.page, a[..|a| - 1], b[..|b| - 1]);
        assert a == a[..|a| - 1] + [p] && b == b[..|b| - 1] + [p];
      }
    } else if |b| > 1 {
      var t := ChainStep(g, root, p, b, seen);
    }
  }

  lemma OneElement(s: set<Slot>, x: Slot, y: Slot)
    requires |s| == 1 && x in s && y in s
    ensures x == y
  {
    assert |s - {x}| == 0;
  }
}
