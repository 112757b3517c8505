/** The depth-first walk of one B-tree with an explicit stack. The page graph is arbitrary:
    cycles, shared subtrees and pointers out of the file are all allowed. */
module TreeWalk {
  import opened PageFile
  import G = PageGraph

  ghost function GraphOf(f: File): G.Graph {
    seq(PageCount(f), i requires 0 <= i < PageCount(f) => Children(f, i + 1))
  }

  // ----- the walk

  lemma GraphPages(f: File)
    ensures |GraphOf(f)| == PageCount(f)
    ensures forall p: nat :: G.InRange(GraphOf(f), p) <==> InRange(f, p)
    ensures forall p: nat :: InRange(f, p) ==> G.Kids(GraphOf(f), p) == Children(f, p)
  {
  }

  /** Some page the walk of root arrives at cannot be read. */
  ghost predicate BadPage(f: File, root: nat, p: nat) {
    InRange(f, p) && !Readable(f, p) && G.Reachable(GraphOf(f), root, p)
  }

  ghost predicate AllReadable(f: File, s: set<nat>) {
    forall p: nat :: p in s && InRange(f, p) ==> Readable(f, p)
  }

  lemma NoBadPage(f: File, root: nat, seen: set<nat>)
    requires AllReadable(f, seen)
    requires forall p: nat :: p in seen <==> G.Reachable(GraphOf(f), root, p)
    ensures !exists p: nat :: BadPage(f, root, p)
  {
  }

  /** The first i cells could be read, and what they point at is on the stack. */
  ghost predicate Pushed(f: File, p: nat, i: nat, stack0: seq<nat>, stack: seq<nat>)
    requires InRange(f, p)
  {
    && CellsReadable(f, p, i)
    && stack == if Interior(f, p) then stack0 + CellChildren(f, p, i) else stack0
  }

  lemma PushedNext(f: File, p: nat, i: nat, stack0: seq<nat>, stack: seq<nat>)
    requires InRange(f, p) && Pushed(f, p, i, stack0, stack) && CellReadable(f, p, i)
    ensures Pushed(f, p, i + 1, stack0, if Interior(f, p) then stack + [CellChild(f, p, i)] else stack)
  {
  }

  lemma PushedAll(f: File, p: nat, stack0: seq<nat>, stack: seq<nat>)
    requires InRange(f, p) && Pushed(f, p, CellCount(f, p), stack0, stack)
    ensures Readable(f, p)
    ensures (if Interior(f, p) then stack + [RightMost(f, p)] else stack) == stack0 + Children(f, p)
  {
  }

  lemma NotReadable(f: File, p: nat, i: nat)
    requires InRange(f, p) && i < CellCount(f, p) && !CellReadable(f, p, i)
    ensures !Readable(f, p)
  {
  }

  /** Pushes every child pointer of p, or stops at the first read outside the file. */
  method PushChildren(f: File, p: nat, stack0: seq<nat>) returns (panicked: bool, stack: seq<nat>)
    requires InRange(f, p)
    ensures panicked == !Readable(f, p)
    ensures !panicked ==> stack == stack0 + Children(f, p)
  {
    stack := stack0;
    var interior := Interior(f, p);
    var n := CellCount(f, p);
    var i: nat := 0;
    NothingPushed(f, p, stack0);
    while i < n
      invariant i <= n && Pushed(f, p, i, stack0, stack)
    {
      if !CellReadable(f, p, i) {
        NotReadable(f, p, i);
        return true, stack;
      }
      PushedNext(f, p, i, stack0, stack);
      if interior {
        stack := stack + [CellChild(f, p, i)];
      }
      i := i + 1;
    }
    PushedAll(f, p, stack0, stack);
    if interior {
      stack := stack + [RightMost(f, p)];
    }
    panicked := false;
  }

  lemma NothingPushed(f: File, p: nat, stack0: seq<nat>)
    requires InRange(f, p)
    ensures Pushed(f, p, 0, stack0, stack0)
  {
  }

  /** A page popped for the first time is reachable; it stops the walk or can be read. */
  lemma Arrives(f: File, root: nat, rest: seq<nat>, p: nat, seen: set<nat>, outOfRange: seq<nat>, twice: seq<nat>)
    requires InRange(f, p) && AllReadable(f, seen)
    requires G.Walking(GraphOf(f), root, rest + [p], seen, outOfRange, twice)
    ensures if Readable(f, p) then AllReadable(f, seen + {p}) else exists q: nat :: BadPage(f, root, q)
    ensures G.Kids(GraphOf(f), p) == Children(f, p)
    ensures G.InRange(GraphOf(f), p)
  {
    GraphPages(f);
    assert p in rest + [p];
    if !Readable(f, p) { assert BadPage(f, root, p); }
  }

  /** Walks the tree of root, adding to owned. The run stops on a bad read exactly when some
      reachable page is not readable; otherwise owned grows by exactly the reachable pages and
      the two report lists account for every pointer followed. */
  method Walk(f: File, root: nat, owned0: set<nat>)
    returns (panicked: bool, owned: set<nat>, seen: set<nat>, outOfRange: seq<nat>, twice: seq<nat>)
    ensures panicked <==> exists p: nat :: BadPage(f, root, p)
    ensures !panicked ==> owned == owned0 + seen && G.WalkLaw(GraphOf(f), root, seen, outOfRange, twice)
  {
    ghost var g := GraphOf(f);
    var stack: seq<nat> := [root];
    owned, seen, outOfRange, twice := owned0, {}, [], [];
    G.WalkStarts(g, root);
    GraphPages(f);
    while |stack| > 0
      invariant owned == owned0 + seen
      invariant AllReadable(f, seen)
      invariant G.Walking(g, root, stack, seen, outOfRange, twice)
      decreases G.Unseen(g, seen), |stack|
    {
      var p: nat := stack[|stack| - 1];
      G.SplitLast(stack);
      stack := stack[..|stack| - 1];
      if p == 0 || p > PageCount(f) {
        G.PopOutOfRange(g, root, stack, p, seen, outOfRange, twice);
        outOfRange := outOfRange + [p];
        continue;
      }
      if p in seen {
        G.PopTwice(g, root, stack, p, seen, outOfRange, twice);
        twice := twice + [p];
        continue;
      }
      Arrives(f, root, stack, p, seen, outOfRange, twice);
      G.PopFresh(g, root, stack, p, seen, outOfRange, twice);
      seen := seen + {p};
      owned := owned + {p};
      panicked, stack := PushChildren(f, p, stack);
      if panicked { return; }
    }
    panicked := false;
    G.WalkEnds(g, root, seen, outOfRange, twice);
    NoBadPage(f, root, seen);
  }
}
