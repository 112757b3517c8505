/** Who owns each page: the trees, the freelist, both or neither, and which pointers lead to the
    pages owned twice. */
module Ownership {
  import opened Finite
  import opened PageFile
  import opened Words
  import G = PageGraph
  import TW = TreeWalk
  import FL = Freelist
  import C = TrunkChain

  // ----- which roots are walked

  function Cut(root: int): nat { root % TWO32 }

  /** Root page numbers come from the schema as signed integers: the schema tree at page 1, then
      every positive root cut to 32 bits. */
  function WalkedRoots(schema: seq<int>): (rs: seq<nat>)
    ensures |rs| > 0 && rs[0] == 1
    ensures forall s :: s in schema && s > 0 ==> Cut(s) in rs
    ensures forall r :: r in rs ==> r == 1 || exists s :: s in schema && s > 0 && r == Cut(s)
  {
    if schema == [] then [1]
    else
      var last := schema[|schema| - 1];
      var rest := WalkedRoots(schema[..|schema| - 1]);
      assert forall s :: s in schema <==> s in schema[..|schema| - 1] || s == last;
      if last > 0 then rest + [Cut(last)] else rest
  }

  /** A page is walked from exactly if it is page 1 or a positive root of the schema modulo 2^32. */
  lemma WalkedRootsIff(schema: seq<int>, r: nat)
    ensures r in WalkedRoots(schema) <==> r == 1 || exists s :: s in schema && s > 0 && r == s % 0x1_0000_0000
  {
    if s :| s in schema && s > 0 && r == s % 0x1_0000_0000 {
      assert Cut(s) in WalkedRoots(schema);
    }
    if r in WalkedRoots(schema) && r != 1 {
      var s :| s in schema && s > 0 && r == Cut(s);
      assert r == s % 0x1_0000_0000;
    }
  }

  ghost predicate ReachedFrom(f: File, roots: seq<nat>, p: nat) {
    exists r: nat :: r in roots && G.Reachable(TW.GraphOf(f), r, p)
  }

  ghost predicate BadRoot(f: File, r: nat) {
    exists p: nat :: TW.BadPage(f, r, p)
  }

  // ----- the probe for the parents of double-owned pages

  /** A pointer slot of a page the root reaches that names a page of targets. */
  ghost predicate NamesTarget(g: G.Graph, visited: set<nat>, targets: set<nat>, t: G.Slot) {
    && t.page in visited && G.InRange(g, t.page)
    && t.index < |G.Kids(g, t.page)| && G.Kids(g, t.page)[t.index] in targets
  }

  ghost predicate ReportsExactly(g: G.Graph, visited: set<nat>, targets: set<nat>, reports: seq<G.Slot>) {
    && (forall t :: t in reports <==> NamesTarget(g, visited, targets, t))
    && (forall i, j :: 0 <= i < j < |reports| ==> reports[i] != reports[j])
  }

  /** Everything the visited pages point at is visited or still on the stack. */
  ghost predicate Pending(g: G.Graph, root: nat, stack: seq<nat>, seen: set<nat>) {
    && (root in seen || root in stack)
    && (forall p: nat :: (p in seen || p in stack) && G.InRange(g, p) ==> G.Reachable(g, root, p))
    && (forall p: nat, c: nat :: p in seen && G.InRange(g, p) && c in G.Kids(g, p) ==> c in seen || c in stack)
  }

  ghost predicate Visits(g: G.Graph, root: nat, seen: set<nat>) {
    forall p: nat :: p in seen && G.InRange(g, p) <==> G.Reachable(g, root, p)
  }

  lemma PopSeen(g: G.Graph, root: nat, rest: seq<nat>, p: nat, seen: set<nat>)
    requires Pending(g, root, rest + [p], seen)
    requires p in seen || !G.InRange(g, p)
    ensures Pending(g, root, rest, seen + {p})
  {
    assert forall q: nat :: q in rest + [p] <==> q in rest || q == p;
  }

  lemma PopNew(g: G.Graph, root: nat, rest: seq<nat>, p: nat, seen: set<nat>)
    requires Pending(g, root, rest + [p], seen) && G.InRange(g, p)
    ensures Pending(g, root, rest + G.Kids(g, p), seen + {p})
  {
    assert p in rest + [p];
    assert forall q: nat :: q in rest + [p] <==> q in rest || q == p;
    assert forall q: nat :: q in rest + G.Kids(g, p) <==> q in rest || q in G.Kids(g, p);
    forall c: nat | c in G.Kids(g, p) && G.InRange(g, c) ensures G.Reachable(g, root, c) {
      G.ChildReachable(g, root, p, c);
    }
  }

  lemma NothingPending(g: G.Graph, root: nat, seen: set<nat>)
    requires Pending(g, root, [], seen)
    ensures Visits(g, root, seen)
  {
    var inside := set p | p in seen && G.InRange(g, p);
    forall p: nat | G.Reachable(g, root, p) ensures p in seen {
      var chain :| G.IsChain(g, root, p, chain);
      assert G.InRange(g, chain[0]);
      G.ClosedHoldsChain(g, root, p, chain, inside);
    }
  }

  lemma SeenMore(g: G.Graph, seen: set<nat>, p: nat, targets: set<nat>, reports: seq<G.Slot>)
    requires ReportsExactly(g, seen, targets, reports)
    requires p in seen || !G.InRange(g, p)
    ensures ReportsExactly(g, seen + {p}, targets, reports)
    ensures G.Unseen(g, seen + {p}) == G.Unseen(g, seen)
  {
    forall t ensures NamesTarget(g, seen + {p}, targets, t) <==> NamesTarget(g, seen, targets, t) {
    }
    assert (set q: nat | 1 <= q <= |g| && q !in seen + {p}) == (set q: nat | 1 <= q <= |g| && q !in seen);
  }

  lemma ReportsGrow(g: G.Graph, seen: set<nat>, p: nat, targets: set<nat>, reports: seq<G.Slot>, more: seq<G.Slot>)
    requires ReportsExactly(g, seen, targets, reports)
    requires G.InRange(g, p) && p !in seen
    requires forall t :: t in more <==> t.page == p && t.index < |G.Kids(g, p)| && G.Kids(g, p)[t.index] in targets
    requires forall i, j :: 0 <= i < j < |more| ==> more[i] != more[j]
    ensures ReportsExactly(g, seen + {p}, targets, reports + more)
  {
    var all := reports + more;
    forall t ensures t in all <==> NamesTarget(g, seen + {p}, targets, t) {
      assert t in all <==> t in reports || t in more;
    }
    forall i, j | 0 <= i < j < |all| ensures all[i] != all[j] {
      if i < |reports| <= j {
        assert all[i] in reports && all[j] in more;
      }
    }
  }

  /** Adds the child pointers of p to the stack and reports those that name a target. */
  method ReportChildren(f: File, p: nat, targets: set<nat>, stack0: seq<nat>)
    returns (stack: seq<nat>, reports: seq<G.Slot>)
    requires InRange(f, p) && Readable(f, p) && Interior(f, p)
    ensures stack == stack0 + Children(f, p)
    ensures forall t :: t in reports <==>
                        t.page == p && t.index < |Children(f, p)| && Children(f, p)[t.index] in targets
    ensures forall i, j :: 0 <= i < j < |reports| ==> reports[i] != reports[j]
  {
    SlotOrder(f, p);
    ghost var kids := Children(f, p);
    stack, reports := stack0, [];
    NoSlot(p, kids, targets, stack0);
    var n := CellCount(f, p);
    var i: nat := 0;
    while i < n
      invariant i <= n == |kids| - 1
      invariant SlotsBelow(p, kids, i, targets, stack0, stack, reports)
    {
      CellSlot(f, p, i);
      NextSlot(p, kids, i, targets, stack0, stack, reports);
      var child := CellChild(f, p, i);
      if child in targets {
        reports := reports + [G.Slot(p, i)];
      }
      stack := stack + [child];
      i := i + 1;
    }
    NextSlot(p, kids, n, targets, stack0, stack, reports);
    var rm := RightMost(f, p);
    if rm in targets {
      reports := reports + [G.Slot(p, n)];
    }
    stack := stack + [rm];
    AllSlots(p, kids, targets, stack0, stack, reports);
  }

  /** The slots of page p below i are on the stack, and those that name a target are reported, each once. */
  ghost predicate SlotsBelow(p: nat, kids: seq<nat>, i: nat, targets: set<nat>,
                             stack0: seq<nat>, stack: seq<nat>, reports: seq<G.Slot>)
    requires i <= |kids|
  {
    && stack == stack0 + kids[..i]
    && (forall t :: t in reports <==> t.page == p && t.index < i && kids[t.index] in targets)
    && (forall a, b :: 0 <= a < b < |reports| ==> reports[a] != reports[b])
  }

  lemma NoSlot(p: nat, kids: seq<nat>, targets: set<nat>, stack0: seq<nat>)
    ensures SlotsBelow(p, kids, 0, targets, stack0, stack0, [])
  {
  }

  lemma NextSlot(p: nat, kids: seq<nat>, i: nat, targets: set<nat>,
                 stack0: seq<nat>, stack: seq<nat>, reports: seq<G.Slot>)
    requires i < |kids| && SlotsBelow(p, kids, i, targets, stack0, stack, reports)
    ensures SlotsBelow(p, kids, i + 1, targets, stack0, stack + [kids[i]],
                       if kids[i] in targets then reports + [G.Slot(p, i)] else reports)
  {
    assert (stack0 + kids[..i]) + [kids[i]] == stack0 + kids[..i + 1];
  }

  lemma AllSlots(p: nat, kids: seq<nat>, targets: set<nat>, stack0: seq<nat>, stack: seq<nat>, reports: seq<G.Slot>)
    requires SlotsBelow(p, kids, |kids|, targets, stack0, stack, reports)
    ensures stack == stack0 + kids
    ensures forall t :: t in reports <==> t.page == p && t.index < |kids| && kids[t.index] in targets
    ensures forall i, j :: 0 <= i < j < |reports| ==> reports[i] != reports[j]
  {
    assert kids[..|kids|] == kids;
  }

  /** The parent search of one root: its report lines are exactly the pointer slots of pages the
      root reaches that name a target, each once. */
  method Probe(f: File, root: nat, targets: set<nat>) returns (seen: set<nat>, reports: seq<G.Slot>)
    requires forall p: nat :: InRange(f, p) && G.Reachable(TW.GraphOf(f), root, p) ==> Readable(f, p)
    ensures Visits(TW.GraphOf(f), root, seen)
    ensures ReportsExactly(TW.GraphOf(f), seen, targets, reports)
  {
    ghost var g := TW.GraphOf(f);
    TW.GraphPages(f);
    var stack: seq<nat> := [root];
    seen, reports := {}, [];
    if InRange(f, root) { G.RootReachable(g, root); }
    while |stack| > 0
      invariant Pending(g, root, stack, seen)
      invariant ReportsExactly(g, seen, targets, reports)
      decreases G.Unseen(g, seen), |stack|
    {
      var p := stack[|stack| - 1];
      G.SplitLast(stack);
      stack := stack[..|stack| - 1];
      if p in seen || p == 0 || p > PageCount(f) {
        PopSeen(g, root, stack, p, seen);
        SeenMore(g, seen, p, targets, reports);
        seen := seen + {p};
        continue;
      }
      PopNew(g, root, stack, p, seen);
      G.UnseenShrinks(g, seen, p);
      var more: seq<G.Slot> := [];
      if Interior(f, p) {
        stack, more := ReportChildren(f, p, targets, stack);
      } else {
        assert stack + G.Kids(g, p) == stack;
      }
      ReportsGrow(g, seen, p, targets, reports, more);
      seen, reports := seen + {p}, reports + more;
    }
    NothingPending(g, root, seen);
  }

  /** For each target the report lines naming it are all its parent slots below the root. */
  lemma ReportsAreAllParents(g: G.Graph, root: nat, seen: set<nat>, targets: set<nat>, reports: seq<G.Slot>, q: nat)
    requires Visits(g, root, seen) && ReportsExactly(g, seen, targets, reports) && q in targets
    ensures (set t | t in reports && G.SlotInto(g, seen, q, t)) == G.SlotsInto(g, seen, q, |g|)
  {
    forall t: G.Slot ensures t in G.SlotsInto(g, seen, q, |g|) <==> t in reports && G.SlotInto(g, seen, q, t) {
      assert G.SlotInto(g, seen, q, t) ==> NamesTarget(g, seen, targets, t);
    }
  }

  /** A target that the root reaches, other than the root itself, has a report line. */
  lemma TargetHasParent(g: G.Graph, root: nat, seen: set<nat>, targets: set<nat>, reports: seq<G.Slot>, q: nat)
    returns (t: G.Slot)
    requires Visits(g, root, seen) && ReportsExactly(g, seen, targets, reports)
    requires q in targets && G.Reachable(g, root, q) && q != root
    ensures t in reports && G.Reachable(g, root, t.page) && G.SlotInto(g, seen, q, t)
  {
    var chain :| G.IsChain(g, root, q, chain);
    var inside := set p | p in seen && G.InRange(g, p);
    t := G.ChainStep(g, root, q, chain, inside);
    assert NamesTarget(g, seen, targets, t);
  }

  // ----- the whole audit

  datatype Audit = Audit(
    owned: set<nat>,               // pages of the walked trees
    free: set<nat>,                // numbers on the freelist
    overlap: set<nat>,             // both
    orphans: set<nat>,             // neither
    parents: seq<seq<G.Slot>>)     // per walked root, the slots that name an overlap page

  /** The page numbers of the file, cut to 32 bits as the program does. */
  function AllPages(f: File): set<nat> { UpTo(PageCount(f) % TWO32) }

  ghost predicate AuditLaw(f: File, roots: seq<nat>, a: Audit) {
    && (forall p: nat :: p in a.owned <==> ReachedFrom(f, roots, p))
    && a.overlap == a.owned * a.free
    && a.orphans == AllPages(f) - a.owned - a.free
    && |a.parents| == (if a.overlap != {} then |roots| else 0)
    && (a.overlap != {} ==> forall i :: 0 <= i < |roots| ==> ParentsOf(f, roots[i], a.overlap, a.parents[i]))
  }

  ghost predicate ParentsOf(f: File, root: nat, targets: set<nat>, reports: seq<G.Slot>) {
    exists seen :: Visits(TW.GraphOf(f), root, seen) && ReportsExactly(TW.GraphOf(f), seen, targets, reports)
  }

  /** Walks every root in turn. */
  method WalkAll(f: File, roots: seq<nat>) returns (panicked: bool, owned: set<nat>)
    ensures panicked <==> exists r: nat :: r in roots && BadRoot(f, r)
    ensures !panicked ==> forall p: nat :: p in owned <==> ReachedFrom(f, roots, p)
  {
    owned, panicked := {}, false;
    var i := 0;
    while i < |roots|
      invariant i <= |roots| && !panicked
      invariant forall j :: 0 <= j < i ==> !BadRoot(f, roots[j])
      invariant forall p: nat :: p in owned <==> ReachedFrom(f, roots[..i], p)
    {
      var seen, outOfRange, twice;
      ghost var owned0 := owned;
      panicked, owned, seen, outOfRange, twice := TW.Walk(f, roots[i], owned);
      if panicked {
        assert roots[i] in roots && BadRoot(f, roots[i]);
        return;
      }
      assert roots[..i + 1] == roots[..i] + [roots[i]];
      forall p: nat ensures p in owned <==> ReachedFrom(f, roots[..i + 1], p) {
        ReachedFromGrows(f, roots[..i], roots[i], p);
      }
      i := i + 1;
    }
    assert roots[..i] == roots;
  }

  lemma ReachedFromGrows(f: File, roots: seq<nat>, r: nat, p: nat)
    ensures ReachedFrom(f, roots + [r], p) <==> ReachedFrom(f, roots, p) || G.Reachable(TW.GraphOf(f), r, p)
  {
    assert forall q: nat :: q in roots + [r] <==> q in roots || q == r;
  }

  /** The program from the freelist walk to the orphan list. It stops on a bad read exactly when
      the header is missing, the freelist chain leaves the file, or a tree holds a page whose
      pointers cannot be read. */
  method RunAudit(f: File, schema: seq<int>)
    returns (panicked: bool, end: FL.End, a: Audit, trunkTwice: seq<nat>, leafTwice: seq<nat>, hs: seq<nat>, stop: nat)
    ensures |f| < 40 ==> panicked
    ensures |f| >= 40 ==> FL.EndLaw(f, Be32(f, 32), hs, stop, end)
    ensures |f| >= 40 ==> C.Account(FL.TrunksOf(f), hs, a.free, trunkTwice, leafTwice)
    ensures |f| >= 40 ==>
              (panicked <==> end.Panicked? || exists r: nat :: r in WalkedRoots(schema) && BadRoot(f, r))
    ensures !panicked ==> AuditLaw(f, WalkedRoots(schema), a)
  {
    a, panicked, end, trunkTwice, leafTwice, hs, stop := Audit({}, {}, {}, {}, []), true, FL.Panicked, [], [], [], 0;
    if |f| < 40 { return; }
    var free;
    end, free, trunkTwice, leafTwice, hs, stop := FL.WalkFreelist(f, Be32(f, 32));
    a := a.(free := free);
    if end.Panicked? { return; }
    var roots := WalkedRoots(schema);
    var owned;
    panicked, owned := WalkAll(f, roots);
    if panicked { return; }
    var overlap := owned * free;
    var parents: seq<seq<G.Slot>> := [];
    if overlap != {} {
      parents := ProbeAll(f, roots, overlap);
    }
    a := Audit(owned, free, overlap, AllPages(f) - owned - free, parents);
  }

  method ProbeAll(f: File, roots: seq<nat>, overlap: set<nat>) returns (parents: seq<seq<G.Slot>>)
    requires forall r: nat :: r in roots ==> !BadRoot(f, r)
    ensures |parents| == |roots|
    ensures forall i :: 0 <= i < |roots| ==> ParentsOf(f, roots[i], overlap, parents[i])
  {
    parents := [];
    var i := 0;
    while i < |roots|
      invariant i <= |roots| && |parents| == i
      invariant forall j :: 0 <= j < i ==> ParentsOf(f, roots[j], overlap, parents[j])
    {
      assert !BadRoot(f, roots[i]);
      forall p: nat | InRange(f, p) && G.Reachable(TW.GraphOf(f), roots[i], p) ensures Readable(f, p) {
        assert !TW.BadPage(f, roots[i], p);
      }
      var seen, reports := Probe(f, roots[i], overlap);
      parents := parents + [reports];
      i := i + 1;
    }
  }

  /** Every double-owned page that is not itself a walked root has a reported parent slot on a page
      that a walked root reaches. */
  lemma DoubleOwnedHasParent(f: File, roots: seq<nat>, a: Audit, q: nat) returns (i: nat, t: G.Slot)
    requires AuditLaw(f, roots, a) && q in a.overlap && q !in roots
    ensures i < |roots| == |a.parents| && t in a.parents[i]
    ensures var g := TW.GraphOf(f);
            G.Reachable(g, roots[i], t.page) && G.InRange(g, t.page) && t.index < |G.Kids(g, t.page)|
            && G.Kids(g, t.page)[t.index] == q
  {
    var g := TW.GraphOf(f);
    assert q in a.owned;
    var r: nat :| r in roots && G.Reachable(g, r, q);
    i :| 0 <= i < |roots| && roots[i] == r;
    assert ParentsOf(f, roots[i], a.overlap, a.parents[i]);
    var seen :| Visits(g, r, seen) && ReportsExactly(g, seen, a.overlap, a.parents[i]);
    t := TargetHasParent(g, r, seen, a.overlap, a.parents[i], q);
  }

  /** Every reported parent slot is real: it lies on a reachable page and names a double-owned one. */
  lemma ParentIsReal(f: File, roots: seq<nat>, a: Audit, i: nat, t: G.Slot)
    requires AuditLaw(f, roots, a) && a.overlap != {} && i < |a.parents| && t in a.parents[i]
    ensures var g := TW.GraphOf(f);
            G.Reachable(g, roots[i], t.page) && G.InRange(g, t.page) && t.index < |G.Kids(g, t.page)|
            && G.Kids(g, t.page)[t.index] in a.overlap
  {
    assert ParentsOf(f, roots[i], a.overlap, a.parents[i]);
    var g := TW.GraphOf(f);
    var seen :| Visits(g, roots[i], seen) && ReportsExactly(g, seen, a.overlap, a.parents[i]);
    assert NamesTarget(g, seen, a.overlap, t);
  }

  // ----- the outcome is determined

  lemma SameReports(f: File, root: nat, targets: set<nat>, r1: seq<G.Slot>, r2: seq<G.Slot>)
    requires ParentsOf(f, root, targets, r1) && ParentsOf(f, root, targets, r2)
    ensures multiset(r1) == multiset(r2)
  {
    var g := TW.GraphOf(f);
    var seen1 :| Visits(g, root, seen1) && ReportsExactly(g, seen1, targets, r1);
    var seen2 :| Visits(g, root, seen2) && ReportsExactly(g, seen2, targets, r2);
    forall t ensures t in r1 <==> t in r2 {
      assert t in r1 <==> NamesTarget(g, seen1, targets, t);
      assert t in r2 <==> NamesTarget(g, seen2, targets, t);
    }
    SameMembers(r1, r2);
  }

  /** File and schema determine the free set with the lines of its walk, and every set of the audit; the
      parent lines are the same ones too, in whatever order the walk meets them. */
  lemma AuditIsUnique(f: File, schema: seq<int>,
                      end: FL.End, a: Audit, trunkTwice: seq<nat>, leafTwice: seq<nat>, hs: seq<nat>, stop: nat,
                      end': FL.End, a': Audit, trunkTwice': seq<nat>, leafTwice': seq<nat>, hs': seq<nat>, stop': nat)
    requires |f| >= 40
    requires FL.EndLaw(f, Be32(f, 32), hs, stop, end) && FL.EndLaw(f, Be32(f, 32), hs', stop', end')
    requires C.Account(FL.TrunksOf(f), hs, a.free, trunkTwice, leafTwice)
    requires C.Account(FL.TrunksOf(f), hs', a'.free, trunkTwice', leafTwice')
    requires AuditLaw(f, WalkedRoots(schema), a) && AuditLaw(f, WalkedRoots(schema), a')
    ensures end == end' && trunkTwice == trunkTwice' && leafTwice == leafTwice'
    ensures a.owned == a'.owned && a.free == a'.free && a.overlap == a'.overlap && a.orphans == a'.orphans
    ensures |a.parents| == |a'.parents|
    ensures forall i :: 0 <= i < |a.parents| ==> multiset(a.parents[i]) == multiset(a'.parents[i])
  {
    var roots := WalkedRoots(schema);
    FL.EndIsUnique(f, Be32(f, 32), hs, stop, end, hs', stop', end');
    SameOwned(f, roots, a, a');
    forall i | 0 <= i < |a.parents| ensures multiset(a.parents[i]) == multiset(a'.parents[i]) {
      SameReports(f, roots[i], a.overlap, a.parents[i], a'.parents[i]);
    }
  }

  lemma SameOwned(f: File, roots: seq<nat>, a: Audit, a': Audit)
    requires AuditLaw(f, roots, a) && AuditLaw(f, roots, a')
    ensures a.owned == a'.owned
  {
    forall p: nat ensures p in a.owned <==> p in a'.owned {
      assert p in a.owned <==> ReachedFrom(f, roots, p);
    }
  }

  // ----- the schema tree

  lemma SecondIsChild(g: G.Graph, r: nat, p: nat, chain: seq<nat>)
    requires G.IsChain(g, r, p, chain) && |chain| > 1
    ensures G.Kids(g, r) != []
  {
    assert chain[0 + 1] in G.Kids(g, chain[0]);
  }

  /** A page without children reaches itself only. */
  lemma ChildlessReach(g: G.Graph, r: nat, p: nat)
    requires G.InRange(g, r) && G.Kids(g, r) == []
    ensures G.Reachable(g, r, p) <==> p == r
  {
    if G.Reachable(g, r, p) {
      var chain :| G.IsChain(g, r, p, chain);
      if |chain| > 1 { SecondIsChild(g, r, p, chain); }
    }
    G.RootReachable(g, r);
  }

  /** The header of page 1 is looked for at its start, where the magic is: the schema walk sees a leaf. */
  lemma SchemaWalk(f: File, p: nat)
    requires Openable(f) && InRange(f, 1)
    ensures G.Reachable(TW.GraphOf(f), 1, p) <==> p == 1
  {
    FirstPage(f);
    TW.GraphPages(f);
    ChildlessReach(TW.GraphOf(f), 1, p);
  }

  /** The walk of page 1 stops the program exactly on files shorter than the magic, read as a cell
      count, claims: 54000 bytes for the SQLite format. */
  lemma SchemaWalkStops(f: File)
    requires Openable(f) && InRange(f, 1)
    ensures BadRoot(f, 1) <==> |f| < FirstPageNeeds(f)
  {
    FirstPage(f);
    SchemaWalk(f, 1);
    if BadRoot(f, 1) {
      var p: nat :| TW.BadPage(f, 1, p);
      SchemaWalk(f, p);
    }
    if !Readable(f, 1) {
      assert TW.BadPage(f, 1, 1);
    }
  }

  /** So every audit of such a file stops. */
  lemma SmallFileStops(f: File, schema: seq<int>)
    requires Openable(f) && InRange(f, 1) && |f| < FirstPageNeeds(f)
    ensures exists r: nat :: r in WalkedRoots(schema) && BadRoot(f, r)
  {
    SchemaWalkStops(f);
    assert WalkedRoots(schema)[0] in WalkedRoots(schema);
  }

  /** The walk of the schema owns page 1 alone. Every other page of the schema's tree is an orphan unless
      another root reaches it or it is on the freelist. */
  lemma SchemaPagesOrphaned(f: File, schema: seq<int>, a: Audit, p: nat)
    requires Openable(f) && InRange(f, 1) && AuditLaw(f, WalkedRoots(schema), a)
    ensures var others := WalkedRoots(schema)[1..];
            && (p in a.owned <==> p == 1 || ReachedFrom(f, others, p))
            && (p in a.orphans <==> p in AllPages(f) && p != 1 && !ReachedFrom(f, others, p) && p !in a.free)
  {
    var roots := WalkedRoots(schema);
    SchemaWalk(f, p);
    FirstAndRest(f, roots, p);
  }

  lemma FirstAndRest(f: File, roots: seq<nat>, p: nat)
    requires roots != []
    ensures ReachedFrom(f, roots, p) <==> G.Reachable(TW.GraphOf(f), roots[0], p) || ReachedFrom(f, roots[1..], p)
  {
    assert roots == [roots[0]] + roots[1..];
    assert forall r: nat :: r in roots <==> r == roots[0] || r in roots[1..];
  }

  // ----- the accounting identity

  lemma OwnedInFile(f: File, roots: seq<nat>, a: Audit)
    requires AuditLaw(f, roots, a)
    ensures forall p :: p in a.owned ==> 1 <= p <= PageCount(f)
  {
    forall p | p in a.owned ensures 1 <= p <= PageCount(f) {
      var r: nat :| r in roots && G.Reachable(TW.GraphOf(f), r, p);
      G.ReachableInRange(TW.GraphOf(f), r, p);
    }
  }

  /** Every listed page is in a tree, on the freelist or an orphan; an orphan is in neither; and over
      the listed pages, counting tree pages, freelist pages and double-owned pages gives the number
      of orphans. */
  lemma PagesAccountedFor(f: File, roots: seq<nat>, a: Audit)
    requires AuditLaw(f, roots, a)
    ensures AllPages(f) <= a.owned + a.free + a.orphans
    ensures a.orphans !! a.owned && a.orphans !! a.free
    ensures |a.orphans|
         == |AllPages(f)| - |a.owned * AllPages(f)| - |a.free * AllPages(f)| + |a.overlap * AllPages(f)|
  {
    Partition(AllPages(f), a.owned, a.free);
  }

  /** The list of pages holds every page of the file exactly when there are fewer than 2^32. */
  lemma AllPagesIff(f: File)
    ensures |AllPages(f)| == PageCount(f) % 0x1_0000_0000
    ensures forall p: nat :: p in AllPages(f) <==> 1 <= p <= PageCount(f) % 0x1_0000_0000
    ensures (forall p: nat :: InRange(f, p) ==> p in AllPages(f)) <==> PageCount(f) < 0x1_0000_0000
  {
    var n := PageCount(f);
    if n >= TWO32 {
      assert n % TWO32 < TWO32 <= n;
      assert InRange(f, n) && n !in AllPages(f);
    } else {
      assert n % TWO32 == n;
    }
  }

  /** On such a file the tree pages need no cut: orphans = pages - tree pages - listed freelist pages
      + double-owned pages. */
  lemma OrphanCount(f: File, roots: seq<nat>, a: Audit)
    requires AuditLaw(f, roots, a) && PageCount(f) < TWO32
    ensures |a.orphans| == PageCount(f) - |a.owned| - |a.free * AllPages(f)| + |a.overlap|
  {
    AllPagesCount(f);
    OwnedListed(f, roots, a);
    PartitionInside(AllPages(f), a.owned, a.free);
  }

  lemma AllPagesCount(f: File)
    requires PageCount(f) < TWO32
    ensures |AllPages(f)| == PageCount(f)
  {
    AllPagesIff(f);
  }

  lemma OwnedListed(f: File, roots: seq<nat>, a: Audit)
    requires AuditLaw(f, roots, a) && PageCount(f) < TWO32
    ensures a.owned <= AllPages(f)
  {
    OwnedInFile(f, roots, a);
    AllPagesIff(f);
    forall p | p in a.owned ensures p in AllPages(f) {
      assert InRange(f, p);
    }
  }

  lemma PartitionInside(all: set<nat>, owned: set<nat>, free: set<nat>)
    requires owned <= all
    ensures |all - owned - free| == |all| - |owned| - |free * all| + |owned * free|
  {
    Partition(all, owned, free);
    assert owned * all == owned;
    assert owned * free * all == owned * free;
  }

  lemma Partition(all: set<nat>, owned: set<nat>, free: set<nat>)
    ensures |all - owned - free| == |all| - |owned * all| - |free * all| + |owned * free * all|
  {
    var mine, listed := owned * all, free * all;
    assert owned * free * all == mine * listed;
    assert |mine + listed| == |mine| + |listed| - |mine * listed|;
    assert all - owned - free == all - (mine + listed);
    assert all == (mine + listed) + (all - (mine + listed));
  }
}
