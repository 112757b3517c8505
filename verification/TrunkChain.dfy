/** The trunk chain of the freelist over a finite map: what each page holds when read as a trunk.
    Pages that cannot be taken in whole are not in the map. */
module TrunkChain {
  import opened Finite

  const GUARD: nat := 100000

  datatype Trunk = Trunk(next: nat, leaves: seq<nat>)
  type Trunks = map<nat, Trunk>

  /** Following the next pointers from head takes in the trunks hs, in order, and arrives at stop. */
  ghost predicate Follows(m: Trunks, head: nat, hs: seq<nat>, stop: nat) {
    && (hs + [stop])[0] == head
    && forall i :: 0 <= i < |hs| ==> hs[i] in m && m[hs[i]].next == (hs + [stop])[i + 1]
  }

  /** The chain never ends: wherever it arrives is a trunk again. */
  ghost predicate Endless(m: Trunks, head: nat) {
    forall hs: seq<nat>, stop: nat :: Follows(m, head, hs, stop) ==> stop in m
  }

  /** The page numbers listed by the trunks hs, each trunk itself included, with repetition. */
  ghost function Listed(m: Trunks, hs: seq<nat>): multiset<nat>
    requires forall h :: h in hs ==> h in m
  {
    if hs == [] then multiset{}
    else
      var h := hs[|hs| - 1];
      Listed(m, hs[..|hs| - 1]) + multiset{h} + multiset(m[h].leaves)
  }

  ghost function ListedCount(m: Trunks, hs: seq<nat>): nat
    requires forall h :: h in hs ==> h in m
  {
    if hs == [] then 0 else ListedCount(m, hs[..|hs| - 1]) + 1 + |m[hs[|hs| - 1]].leaves|
  }

  lemma {:induction false} ListedSize(m: Trunks, hs: seq<nat>)
    requires forall h :: h in hs ==> h in m
    ensures |Listed(m, hs)| == ListedCount(m, hs)
  {
    if hs == [] {
    } else {
      ListedSize(m, hs[..|hs| - 1]);
    }
  }

  ghost function ListedSet(m: Trunks, hs: seq<nat>): set<nat>
    requires forall h :: h in hs ==> h in m
  {
    set p | p in Listed(m, hs)
  }

  // ----- what is met for a second time

  /** The members of ls, in order, that are in before or stand further left in ls. */
  ghost function Repeats(before: set<nat>, ls: seq<nat>): seq<nat> {
    if ls == [] then []
    else
      var n := |ls| - 1;
      Repeats(before, ls[..n]) + if ls[n] in before || ls[n] in ls[..n] then [ls[n]] else []
  }

  ghost function Elements(ls: seq<nat>): set<nat> { set l | l in ls }

  /** The leaves ls have joined the set before: what is new is in free, the rest behind twice0. */
  ghost predicate TakenIn(before: set<nat>, twice0: seq<nat>, ls: seq<nat>, free: set<nat>, twice: seq<nat>) {
    && free == before + Elements(ls)
    && twice == twice0 + Repeats(before, ls)
    && multiset(free) + multiset(twice) == multiset(before) + multiset(twice0) + multiset(ls)
  }

  lemma OneLeaf(free: set<nat>, twice: seq<nat>, leaf: nat)
    ensures if leaf in free
            then multiset(free) + multiset(twice + [leaf]) == multiset(free) + multiset(twice) + multiset{leaf}
            else multiset(free + {leaf}) + multiset(twice) == multiset(free) + multiset(twice) + multiset{leaf}
  {
    if leaf !in free {
      assert multiset(free + {leaf}) == multiset(free) + multiset{leaf};
    }
  }

  lemma LeafRepeats(before: set<nat>, ls: seq<nat>, leaf: nat)
    ensures Repeats(before, ls + [leaf])
         == Repeats(before, ls) + if leaf in before + Elements(ls) then [leaf] else []
    ensures Elements(ls + [leaf]) == Elements(ls) + {leaf}
  {
    assert (ls + [leaf])[..|ls|] == ls;
  }

  /** The first i of the leaves ls have joined. */
  ghost predicate TakenUpTo(before: set<nat>, twice0: seq<nat>, ls: seq<nat>, i: nat, free: set<nat>, twice: seq<nat>)
  {
    i <= |ls| && TakenIn(before, twice0, ls[..i], free, twice)
  }

  lemma NoneTaken(before: set<nat>, twice0: seq<nat>, ls: seq<nat>)
    ensures TakenUpTo(before, twice0, ls, 0, before, twice0)
  {
    assert Elements(ls[..0]) == {};
    SeqAssoc(twice0, [], []);
  }

  lemma AllTaken(before: set<nat>, twice0: seq<nat>, ls: seq<nat>, free: set<nat>, twice: seq<nat>)
    requires TakenUpTo(before, twice0, ls, |ls|, free, twice)
    ensures TakenIn(before, twice0, ls, free, twice)
  {
    assert ls[..|ls|] == ls;
  }

  lemma LeafAt(before: set<nat>, twice0: seq<nat>, ls: seq<nat>, i: nat, leaf: nat, free: set<nat>, twice: seq<nat>)
    requires i < |ls| && ls[i] == leaf && TakenUpTo(before, twice0, ls, i, free, twice)
    ensures TakenUpTo(before, twice0, ls, i + 1, free + {leaf}, if leaf in free then twice + [leaf] else twice)
  {
    NextLeaf(before, twice0, ls[..i], leaf, free, twice);
    TakeNext(ls, i);
  }

  lemma TakeNext(ls: seq<nat>, i: nat)
    requires i < |ls|
    ensures ls[..i + 1] == ls[..i] + [ls[i]]
  {
  }

  lemma NextLeaf(before: set<nat>, twice0: seq<nat>, ls: seq<nat>, leaf: nat, free: set<nat>, twice: seq<nat>)
    requires TakenIn(before, twice0, ls, free, twice)
    ensures TakenIn(before, twice0, ls + [leaf], free + {leaf}, if leaf in free then twice + [leaf] else twice)
  {
    LeafRepeats(before, ls, leaf);
    LeafCounted(free, twice, leaf);
    SetAssoc(before, Elements(ls), {leaf});
    SeqAssoc(twice0, Repeats(before, ls), [leaf]);
    Assoc(multiset(before) + multiset(twice0), multiset(ls), multiset{leaf});
    assert multiset(ls + [leaf]) == multiset(ls) + multiset{leaf};
  }

  /** The leaf is in free or behind twice once more. */
  lemma LeafCounted(free: set<nat>, twice: seq<nat>, leaf: nat)
    ensures multiset(free + {leaf}) + multiset(if leaf in free then twice + [leaf] else twice)
         == multiset(free) + multiset(twice) + multiset{leaf}
  {
    OneLeaf(free, twice, leaf);
    if leaf in free { assert free + {leaf} == free; }
  }

  lemma SetAssoc(a: set<nat>, b: set<nat>, c: set<nat>)
    ensures a + b + c == a + (b + c)
  {
  }

  lemma SeqAssoc(a: seq<nat>, b: seq<nat>, c: seq<nat>)
    ensures a + b + c == a + (b + c)
    ensures a + [] == a
  {
  }

  lemma Assoc(a: multiset<nat>, b: multiset<nat>, c: multiset<nat>)
    ensures a + b + c == a + (b + c)
  {
  }

  /** The trunks that an earlier trunk is or lists. */
  ghost function RepeatedTrunks(m: Trunks, hs: seq<nat>): seq<nat>
    requires forall h :: h in hs ==> h in m
  {
    if hs == [] then []
    else
      var n := |hs| - 1;
      RepeatedTrunks(m, hs[..n]) + if hs[n] in Listed(m, hs[..n]) then [hs[n]] else []
  }

  /** The leaves that an earlier trunk is or lists, or that their own trunk is or has listed before. */
  ghost function RepeatedLeaves(m: Trunks, hs: seq<nat>): seq<nat>
    requires forall h :: h in hs ==> h in m
  {
    if hs == [] then []
    else
      var n := |hs| - 1;
      RepeatedLeaves(m, hs[..n]) + Repeats(ListedSet(m, hs[..n]) + {hs[n]}, m[hs[n]].leaves)
  }

  /** Trunk i was listed before its turn. */
  ghost predicate ListedBefore(m: Trunks, hs: seq<nat>, i: nat)
    requires forall h :: h in hs ==> h in m
  {
    i < |hs| && hs[i] in Listed(m, hs[..i])
  }

  lemma RepeatsTake(m: Trunks, hs: seq<nat>, n: nat, p: nat)
    requires (forall h :: h in hs ==> h in m) && n < |hs|
    ensures p in RepeatedTrunks(m, hs[..n + 1])
       <==> p in RepeatedTrunks(m, hs[..n]) || (hs[n] == p && ListedBefore(m, hs, n))
  {
    assert hs[..n + 1][..n] == hs[..n];
  }

  /** One of the first n trunks is p and was listed before its turn. */
  ghost predicate SomeRepeat(m: Trunks, hs: seq<nat>, n: nat, p: nat)
    requires (forall h :: h in hs ==> h in m) && n <= |hs|
  {
    exists i :: 0 <= i < n && hs[i] == p && ListedBefore(m, hs, i)
  }

  lemma SomeRepeatNext(m: Trunks, hs: seq<nat>, n: nat, p: nat)
    requires (forall h :: h in hs ==> h in m) && n < |hs|
    ensures SomeRepeat(m, hs, n + 1, p) <==> SomeRepeat(m, hs, n, p) || (hs[n] == p && ListedBefore(m, hs, n))
  {
  }

  lemma {:induction false} RepeatsUpTo(m: Trunks, hs: seq<nat>, n: nat, p: nat)
    requires (forall h :: h in hs ==> h in m) && n <= |hs|
    ensures p in RepeatedTrunks(m, hs[..n]) <==> SomeRepeat(m, hs, n, p)
  {
    if n == 0 {
      assert hs[..0] == [];
    } else {
      RepeatsUpTo(m, hs, n - 1, p);
      RepeatsTake(m, hs, n - 1, p);
      SomeRepeatNext(m, hs, n - 1, p);
    }
  }

  /** A page is among the repeated trunks exactly when it is a trunk that was listed before its turn. */
  lemma TrunkRepeatsIff(m: Trunks, hs: seq<nat>, p: nat)
    requires forall h :: h in hs ==> h in m
    ensures p in RepeatedTrunks(m, hs) <==> SomeRepeat(m, hs, |hs|, p)
  {
    RepeatsUpTo(m, hs, |hs|, p);
    assert hs[..|hs|] == hs;
  }

  // ----- the account kept by the walk

  /** After the trunks hs: the free set, and the lines printed for trunks and for leaves. The free set is
      everything listed; the lines are what was met again; together they are the list with repetition. */
  ghost predicate Account(m: Trunks, hs: seq<nat>, free: set<nat>, trunkTwice: seq<nat>, leafTwice: seq<nat>) {
    && (forall h :: h in hs ==> h in m)
    && free == ListedSet(m, hs)
    && trunkTwice == RepeatedTrunks(m, hs)
    && leafTwice == RepeatedLeaves(m, hs)
    && multiset(free) + multiset(trunkTwice) + multiset(leafTwice) == Listed(m, hs)
    && (trunkTwice == [] ==> Distinct(hs))
  }

  lemma ListedNext(m: Trunks, hs: seq<nat>, h: nat)
    requires (forall h :: h in hs ==> h in m) && h in m
    ensures (hs + [h])[..|hs|] == hs
    ensures ListedSet(m, hs + [h]) == ListedSet(m, hs) + {h} + Elements(m[h].leaves)
    ensures Listed(m, hs + [h]) == Listed(m, hs) + multiset{h} + multiset(m[h].leaves)
  {
    assert (hs + [h])[..|hs|] == hs;
  }

  lemma RepeatedNext(m: Trunks, hs: seq<nat>, h: nat)
    requires (forall h :: h in hs ==> h in m) && h in m
    ensures RepeatedTrunks(m, hs + [h])
         == RepeatedTrunks(m, hs) + if h in ListedSet(m, hs) then [h] else []
    ensures RepeatedLeaves(m, hs + [h])
         == RepeatedLeaves(m, hs) + Repeats(ListedSet(m, hs) + {h}, m[h].leaves)
  {
    assert (hs + [h])[..|hs|] == hs;
  }

  lemma {:induction false} TrunksListed(m: Trunks, hs: seq<nat>)
    requires forall h :: h in hs ==> h in m
    ensures forall h :: h in hs ==> h in Listed(m, hs)
  {
    if hs == [] {
    } else {
      TrunksListed(m, hs[..|hs| - 1]);
    }
  }

  /** The next trunk and its leaves join the account: the trunk itself goes to free or, if it was
      already there, to the repeated trunks, and so does each leaf in its turn. */
  lemma AccountGrows(m: Trunks, hs: seq<nat>, h: nat, free: set<nat>, trunkTwice: seq<nat>, leafTwice: seq<nat>,
                     free': set<nat>, trunkTwice': seq<nat>, leafTwice': seq<nat>)
    requires Account(m, hs, free, trunkTwice, leafTwice) && h in m
    requires trunkTwice' == if h in free then trunkTwice + [h] else trunkTwice
    requires TakenIn(free + {h}, leafTwice, m[h].leaves, free', leafTwice')
    ensures Account(m, hs + [h], free', trunkTwice', leafTwice')
  {
    SetNext(m, hs, h, free, free');
    LinesNext(m, hs, h, free, trunkTwice, leafTwice, trunkTwice', leafTwice');
    AllCounted(m, hs, h, free, trunkTwice, leafTwice, free', trunkTwice', leafTwice');
    StillDistinct(m, hs, h, free, trunkTwice);
  }

  lemma SetNext(m: Trunks, hs: seq<nat>, h: nat, free: set<nat>, free': set<nat>)
    requires (forall h :: h in hs ==> h in m) && h in m
    requires free == ListedSet(m, hs) && free' == free + {h} + Elements(m[h].leaves)
    ensures free' == ListedSet(m, hs + [h])
  {
    ListedNext(m, hs, h);
  }

  lemma LinesNext(m: Trunks, hs: seq<nat>, h: nat, free: set<nat>, trunkTwice: seq<nat>, leafTwice: seq<nat>,
                  trunkTwice': seq<nat>, leafTwice': seq<nat>)
    requires (forall h :: h in hs ==> h in m) && h in m && free == ListedSet(m, hs)
    requires trunkTwice == RepeatedTrunks(m, hs) && leafTwice == RepeatedLeaves(m, hs)
    requires trunkTwice' == if h in free then trunkTwice + [h] else trunkTwice
    requires leafTwice' == leafTwice + Repeats(free + {h}, m[h].leaves)
    ensures trunkTwice' == RepeatedTrunks(m, hs + [h]) && leafTwice' == RepeatedLeaves(m, hs + [h])
  {
    RepeatedNext(m, hs, h);
    SeqAssoc(trunkTwice, [], []);
  }

  lemma StillDistinct(m: Trunks, hs: seq<nat>, h: nat, free: set<nat>, trunkTwice: seq<nat>)
    requires (forall h :: h in hs ==> h in m) && free == ListedSet(m, hs) && (trunkTwice == [] ==> Distinct(hs))
    ensures (if h in free then trunkTwice + [h] else trunkTwice) == [] ==> Distinct(hs + [h])
  {
    TrunksListed(m, hs);
  }

  lemma AllCounted(m: Trunks, hs: seq<nat>, h: nat, free: set<nat>, trunkTwice: seq<nat>, leafTwice: seq<nat>,
                   free': set<nat>, trunkTwice': seq<nat>, leafTwice': seq<nat>)
    requires (forall h :: h in hs ==> h in m) && h in m
    requires multiset(free) + multiset(trunkTwice) + multiset(leafTwice) == Listed(m, hs)
    requires trunkTwice' == if h in free then trunkTwice + [h] else trunkTwice
    requires multiset(free') + multiset(leafTwice')
          == multiset(free + {h}) + multiset(leafTwice) + multiset(m[h].leaves)
    ensures multiset(free') + multiset(trunkTwice') + multiset(leafTwice') == Listed(m, hs + [h])
  {
    ListedNext(m, hs, h);
    LeafCounted(free, trunkTwice, h);
    Rearrange(multiset(free'), multiset(trunkTwice'), multiset(leafTwice'), multiset(free + {h}), multiset(leafTwice),
              multiset(m[h].leaves), multiset(free) + multiset(trunkTwice), multiset{h});
  }

  /** Of the times a page is listed every one but the first has a line. */
  lemma LinesPerPage(m: Trunks, hs: seq<nat>, free: set<nat>, trunkTwice: seq<nat>, leafTwice: seq<nat>, p: nat)
    requires Account(m, hs, free, trunkTwice, leafTwice)
    ensures multiset(trunkTwice)[p] + multiset(leafTwice)[p]
         == if p in free then Listed(m, hs)[p] - 1 else 0
    ensures p in free <==> Listed(m, hs)[p] > 0
  {
    assert Listed(m, hs)[p] == multiset(free)[p] + multiset(trunkTwice)[p] + multiset(leafTwice)[p];
  }

  lemma Rearrange(f': multiset<nat>, t': multiset<nat>, l': multiset<nat>, fh: multiset<nat>, l: multiset<nat>,
                  k: multiset<nat>, ft: multiset<nat>, h: multiset<nat>)
    requires f' + l' == fh + l + k && fh + t' == ft + h
    ensures f' + t' + l' == ft + l + h + k
  {
    assert f' + t' + l' == (f' + l') + t';
    assert (fh + l + k) + t' == (fh + t') + l + k;
  }

  /** Distinct pages taken in plus lines printed equals the sum of 1 + leaf count over the trunks. */
  lemma AccountCount(m: Trunks, hs: seq<nat>, free: set<nat>, trunkTwice: seq<nat>, leafTwice: seq<nat>)
    requires Account(m, hs, free, trunkTwice, leafTwice)
    ensures |free| + |trunkTwice| + |leafTwice| == ListedCount(m, hs)
  {
    ListedSize(m, hs);
    assert |multiset(free) + multiset(trunkTwice) + multiset(leafTwice)| == |Listed(m, hs)|;
  }

  // ----- what the guard means

  /** The guard never fires silently while fewer than GUARD pages can be trunks: some trunk was
      reported twice before it fired. */
  lemma LoopIsReported(m: Trunks, hs: seq<nat>, free: set<nat>, trunkTwice: seq<nat>, leafTwice: seq<nat>)
    requires Account(m, hs, free, trunkTwice, leafTwice) && |m| < |hs|
    ensures trunkTwice != []
  {
    if trunkTwice == [] {
      Pigeonhole(hs, m.Keys);
    }
  }

  lemma FollowsOn(m: Trunks, head: nat, hs: seq<nat>, stop: nat)
    requires Follows(m, head, hs, stop) && stop in m
    ensures Follows(m, head, hs + [stop], m[stop].next)
  {
    var next := m[stop].next;
    forall i | 0 <= i < |hs| + 1 ensures m[(hs + [stop])[i]].next == (hs + [stop] + [next])[i + 1] {
      if i < |hs| { assert hs[i] in m; }
    }
    assert forall i :: 0 <= i < |hs| ==> (hs + [stop])[i] == hs[i];
  }

  /** The chain has no choice: two chains from the same head agree as far as both go. */
  lemma {:induction false} Determined(m: Trunks, head: nat, a: seq<nat>, x: nat, b: seq<nat>, y: nat, k: nat)
    requires Follows(m, head, a, x) && Follows(m, head, b, y) && k <= |a| && k <= |b|
    ensures (a + [x])[k] == (b + [y])[k]
  {
    if k == 0 {
    } else {
      Determined(m, head, a, x, b, y, k - 1);
      assert a[k - 1] == b[k - 1];
    }
  }

  /** A chain that has arrived outside the map goes no further. */
  lemma StopsThere(m: Trunks, head: nat, a: seq<nat>, x: nat, b: seq<nat>, y: nat)
    requires Follows(m, head, a, x) && Follows(m, head, b, y) && x !in m
    ensures |b| <= |a|
  {
    if |a| < |b| {
      Determined(m, head, a, x, b, y, |a|);
    }
  }

  lemma SameChain(m: Trunks, head: nat, a: seq<nat>, x: nat, b: seq<nat>, y: nat)
    requires Follows(m, head, a, x) && Follows(m, head, b, y) && |a| == |b|
    ensures a == b && x == y
  {
    forall k: nat | k <= |a| ensures (a + [x])[k] == (b + [y])[k] {
      Determined(m, head, a, x, b, y, k);
    }
    assert (a + [x])[|a|] == x && (b + [y])[|a|] == y;
    forall k | 0 <= k < |a| ensures a[k] == b[k] {
      assert (a + [x])[k] == a[k] && (b + [y])[k] == b[k];
    }
  }

  /** A chain that repeats a trunk can be followed for ever. */
  lemma {:induction false} RepeatGoesOn(m: Trunks, head: nat, hs: seq<nat>, stop: nat,
                                        i: nat, j: nat, b: seq<nat>, y: nat)
    requires Follows(m, head, hs, stop) && i < j < |hs| && hs[i] == hs[j]
    requires Follows(m, head, b, y)
    ensures y in m
    decreases |b|
  {
    if |b| < |hs| {
      Determined(m, head, hs, stop, b, y, |b|);
      assert hs[|b|] in m;
    } else {
      Determined(m, head, hs, stop, b, y, i);
      Determined(m, head, hs, stop, b, y, j);
      var c := b[..i] + b[j..];
      forall k | 0 <= k < |c| ensures c[k] in m && m[c[k]].next == (c + [y])[k + 1] {
        var o := if k < i then k else k + (j - i);
        assert b[o] in m && m[b[o]].next == (b + [y])[o + 1];
        assert c[k] == b[o];
        if k == i - 1 {
          assert (c + [y])[i] == b[j] == b[i];
        }
      }
      RepeatGoesOn(m, head, hs, stop, i, j, c, y);
    }
  }

  /** The pages from first on, k of them. */
  function PagesFrom(first: nat, k: nat): (hs: seq<nat>)
    ensures |hs| == k && forall i :: 0 <= i < k ==> hs[i] == first + i
  {
    seq(k, i requires 0 <= i < k => first + i)
  }

  lemma FollowsPages(m: Trunks, first: nat, k: nat, stop: nat)
    requires stop == first + k && forall h :: first <= h < stop ==> h in m && m[h].next == h + 1
    ensures Follows(m, first, PagesFrom(first, k), stop)
  {
    var hs := PagesFrom(first, k);
    forall i | 0 <= i < |hs| ensures hs[i] in m && m[hs[i]].next == (hs + [stop])[i + 1] {
      assert hs[i] == first + i;
    }
  }

  /** A chain longer than the number of possible trunks is endless. */
  lemma LongIsEndless(m: Trunks, head: nat, hs: seq<nat>, stop: nat)
    requires Follows(m, head, hs, stop) && |m| < |hs|
    ensures Endless(m, head)
  {
    if Distinct(hs) {
      Pigeonhole(hs, m.Keys);
    }
    var i, j :| 0 <= i < j < |hs| && hs[i] == hs[j];
    forall b: seq<nat>, y: nat | Follows(m, head, b, y) ensures y in m {
      RepeatGoesOn(m, head, hs, stop, i, j, b, y);
    }
  }
}
