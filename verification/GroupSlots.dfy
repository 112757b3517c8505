/** The grouper's open-addressing slot table: linear probing, a power-of-two capacity that doubles
    when the load passes three quarters, and a growth step that starts over with empty slots. */
module GroupSlots {
  import opened Finite
  import opened Words

  const HASH_FACTOR: nat := 0x9E37_79B9_7F4A_7C15

  function Hash(g: nat): nat { g * HASH_FACTOR % TWO64 }

  /** index 0 marks an empty slot; group g is stored as g + 1. */
  datatype Slot = Slot(hash: nat, index: nat)

  // ----- masks

  /** Bitwise and. */
  function And(x: nat, y: nat): nat {
    if x == 0 || y == 0 then 0 else 2 * And(x / 2, y / 2) + (x % 2) * (y % 2)
  }

  function Pow2(k: nat): (p: nat)
    ensures p > 0
  {
    if k == 0 then 1 else 2 * Pow2(k - 1)
  }

  lemma {:induction false} AndBelow(x: nat, y: nat)
    ensures And(x, y) <= y
  {
    if x == 0 || y == 0 {
    } else {
      AndBelow(x / 2, y / 2);
      assert x % 2 == 0 || x % 2 == 1;
      assert (x % 2) * (y % 2) <= y % 2;
    }
  }

  lemma {:induction false} AtLeastOnce(k: nat, m: nat)
    requires k > 0
    ensures k * m >= m
  {
    if k > 1 {
      AtLeastOnce(k - 1, m);
      assert k * m == (k - 1) * m + m;
    }
  }

  lemma SmallMultiple(k: int, m: nat)
    requires m > 0 && 0 - m < k * m < m
    ensures k == 0
  {
    assert -k * m == 0 - k * m;
    if k > 0 {
      AtLeastOnce(k, m);
    } else if k < 0 {
      AtLeastOnce(-k, m);
    }
  }

  lemma Remainder(x: nat, q: nat, m: nat, r: nat)
    requires r < m && x == q * m + r
    ensures x % m == r
  {
    var d := x / m;
    assert x == d * m + x % m;
    assert (d - q) * m == d * m - q * m;
    SmallMultiple(d - q, m);
  }

  lemma AndOdd(x: nat, y: nat, h: nat)
    requires y == 2 * h + 1
    ensures And(x, y) == 2 * And(x / 2, h) + x % 2
  {
    assert y / 2 == h && y % 2 == 1;
    assert (x % 2) * 1 == x % 2;
  }

  lemma Doubled(x: nat, q: nat, p: nat, a: nat)
    requires x / 2 == q * p + a
    ensures x == q * (2 * p) + (2 * a + x % 2)
  {
    assert q * (2 * p) == 2 * (q * p);
  }

  lemma {:induction false} MaskedOff(x: nat, k: nat) returns (q: nat)
    ensures x == q * Pow2(k) + And(x, Pow2(k) - 1) && And(x, Pow2(k) - 1) < Pow2(k)
  {
    if k == 0 {
      q := x;
    } else {
      q := MaskedOff(x / 2, k - 1);
      AndOdd(x, Pow2(k) - 1, Pow2(k - 1) - 1);
      Doubled(x, q, Pow2(k - 1), And(x / 2, Pow2(k - 1) - 1));
    }
  }

  /** A full mask is the remainder of the division by its power of two, for every number. */
  lemma MaskIs(x: nat, k: nat)
    ensures And(x, Pow2(k) - 1) == x % Pow2(k)
  {
    var q := MaskedOff(x, k);
    Remainder(x, q, Pow2(k), And(x, Pow2(k) - 1));
  }

  /** So it leaves what is below it alone. */
  lemma MaskKeeps(x: nat, k: nat)
    requires x < Pow2(k)
    ensures And(x, Pow2(k) - 1) == x
  {
    MaskIs(x, k);
    Remainder(x, 0, Pow2(k), x);
  }

  function NextPow2From(p: nat, x: nat): nat
    requires p > 0
    decreases x - p
  {
    if p >= x then p else NextPow2From(2 * p, x)
  }

  function NextPow2(x: nat): nat { NextPow2From(1, x) }

  lemma {:induction false} NextPow2Fixed(j: nat, k: nat)
    requires j <= k
    ensures NextPow2From(Pow2(j), Pow2(k)) == Pow2(k)
    decreases k - j
  {
    if j == k {
    } else {
      Pow2Grows(j, k);
      NextPow2Fixed(j + 1, k);
    }
  }

  lemma {:induction false} Pow2Grows(j: nat, k: nat)
    requires j < k
    ensures Pow2(j) < Pow2(k)
  {
    if j == k - 1 {
    } else {
      Pow2Grows(j, k - 1);
    }
  }

  // ----- the ring of slots

  /** The slot d steps after h. */
  function Ring(h: nat, d: nat, cap: nat): nat
    requires h < cap && d < cap
  {
    if h + d < cap then h + d else h + d - cap
  }

  function Steps(h: nat, i: nat, cap: nat): nat
    requires h < cap && i < cap
  {
    if h <= i then i - h else i + cap - h
  }

  predicate Taken(s: seq<Slot>, i: nat)
    requires i < |s|
  {
    s[i].index != 0
  }

  function Home(g: nat, cap: nat): (h: nat)
    requires cap > 0
    ensures h < cap
  {
    AndBelow(Hash(g), cap - 1);
    And(Hash(g), cap - 1)
  }

  /** The home slot is the hash, masked: the group number times the factor, modulo 2^64, modulo the capacity. */
  lemma HomeIs(g: nat, k: nat)
    ensures Home(g, Pow2(k)) == g * 0x9E37_79B9_7F4A_7C15 % 0x1_0000_0000_0000_0000 % Pow2(k)
  {
    MaskIs(Hash(g), k);
  }

  lemma StepsIs(h: nat, i: nat, cap: nat)
    requires h < cap && i < cap
    ensures Steps(h, i, cap) == (i + cap - h) % cap
  {
    Remainder(i + cap - h, if h <= i then 1 else 0, cap, Steps(h, i, cap));
  }

  /** Slot i can be probed from home h: every slot on the way is taken. */
  ghost predicate Probed(s: seq<Slot>, h: nat, i: nat)
    requires h < |s| && i < |s|
  {
    forall d: nat :: d < Steps(h, i, |s|) ==> Taken(s, Ring(h, d, |s|))
  }

  ghost predicate Stored(s: seq<Slot>, g: nat) {
    exists i :: 0 <= i < |s| && s[i].index == g + 1
  }

  ghost predicate Labelled(s: seq<Slot>, lo: nat, hi: nat) {
    forall i :: 0 <= i < |s| && Taken(s, i) ==> lo < s[i].index <= hi && s[i].hash == Hash(s[i].index - 1)
  }

  ghost predicate Unrepeated(s: seq<Slot>) {
    forall i, j :: 0 <= i < j < |s| && Taken(s, i) && Taken(s, j) ==> s[i].index != s[j].index
  }

  ghost predicate Placed(s: seq<Slot>) {
    forall i :: 0 <= i < |s| && Taken(s, i) ==> Probed(s, Home(s[i].index - 1, |s|), i)
  }

  /** The table holds exactly the groups lo .. hi, each in one slot that probing from its home slot
      reaches. */
  ghost predicate Holds(s: seq<Slot>, lo: nat, hi: nat) {
    && Labelled(s, lo, hi) && Unrepeated(s) && Placed(s)
    && forall g: nat :: lo <= g < hi ==> Stored(s, g)
  }

  // ----- a free slot always exists

  /** Fewer groups than slots leave a slot free. */
  lemma FreeSlot(s: seq<Slot>, lo: nat, hi: nat) returns (f: nat)
    requires Holds(s, lo, hi) && hi < |s|
    ensures f < |s| && !Taken(s, f)
  {
    if forall i :: 0 <= i < |s| ==> Taken(s, i) {
      var held := seq(|s|, i requires 0 <= i < |s| => s[i].index);
      assert forall i :: 0 <= i < |s| ==> Taken(s, i) && held[i] in UpTo(hi);
      Pigeonhole(held, UpTo(hi));
    }
    f :| 0 <= f < |s| && !Taken(s, f);
  }

  // ----- storing one group

  lemma RingSuccessor(h: nat, d: nat, cap: nat)
    requires h < cap && d + 1 < cap
    ensures Ring(h, d + 1, cap) == if Ring(h, d, cap) + 1 == cap then 0 else Ring(h, d, cap) + 1
  {
  }

  lemma RingSteps(h: nat, i: nat, cap: nat)
    requires h < cap && i < cap
    ensures Steps(h, i, cap) < cap && Ring(h, Steps(h, i, cap), cap) == i
  {
  }

  lemma StepsOfRing(h: nat, d: nat, cap: nat)
    requires h < cap && d < cap
    ensures Steps(h, Ring(h, d, cap), cap) == d
  {
  }

  lemma StoreProbed(s: seq<Slot>, i: nat, x: Slot, h: nat, j: nat)
    requires i < |s| && h < |s| && j < |s| && x.index != 0 && Probed(s, h, j)
    ensures Probed(s[i := x], h, j)
  {
    var t := s[i := x];
    forall d: nat | d < Steps(h, j, |t|) ensures Taken(t, Ring(h, d, |t|)) {
      assert Taken(s, Ring(h, d, |s|));
    }
  }

  lemma StorePlaced(s: seq<Slot>, i: nat, x: Slot)
    requires i < |s| && x.index != 0 && Placed(s) && Probed(s, Home(x.index - 1, |s|), i)
    ensures Placed(s[i := x])
  {
    var t := s[i := x];
    forall j | 0 <= j < |t| && Taken(t, j) ensures Probed(t, Home(t[j].index - 1, |t|), j) {
      if j != i { assert Taken(s, j); }
      StoreProbed(s, i, x, Home(t[j].index - 1, |s|), j);
    }
  }

  lemma StoreStored(s: seq<Slot>, i: nat, x: Slot, g: nat)
    requires i < |s| && !Taken(s, i) && x.index != 0 && (Stored(s, g) || x.index == g + 1)
    ensures Stored(s[i := x], g)
  {
    var t := s[i := x];
    if x.index == g + 1 {
      assert t[i].index == g + 1;
    } else {
      var j :| 0 <= j < |s| && s[j].index == g + 1;
      assert t[j].index == g + 1;
    }
  }

  lemma StoreHolds(s: seq<Slot>, lo: nat, hi: nat, i: nat, x: Slot)
    requires Holds(s, lo, hi) && lo <= hi && i < |s| && !Taken(s, i)
    requires x.index == hi + 1 && x.hash == Hash(hi) && Probed(s, Home(hi, |s|), i)
    ensures Holds(s[i := x], lo, hi + 1)
  {
    StorePlaced(s, i, x);
    var t := s[i := x];
    forall g: nat | lo <= g < hi + 1 ensures Stored(t, g) {
      StoreStored(s, i, x, g);
    }
  }

  /** Probes from the home slot of group g to the first free slot. Terminates because a slot is free. */
  method FindFree(slots: array<Slot>, mask: nat, g: nat, ghost k: nat, ghost free: nat) returns (slot: nat)
    requires slots.Length == Pow2(k) == mask + 1 && free < slots.Length && !Taken(slots[..], free)
    ensures slot < slots.Length && !Taken(slots[..], slot) && Probed(slots[..], Home(g, slots.Length), slot)
  {
    ghost var s := slots[..];
    ghost var cap := slots.Length;
    ghost var h := Home(g, cap);
    AndBelow(Hash(g), mask);
    slot := And(Hash(g), mask);
    ghost var d: nat := 0;
    ghost var away := Steps(h, free, cap);
    RingSteps(h, free, cap);
    while slots[slot].index != 0
      invariant d <= away < cap && slot == Ring(h, d, cap)
      invariant forall e: nat :: e < d ==> Taken(s, Ring(h, e, cap))
      decreases away - d
    {
      assert d != away;
      RingSuccessor(h, d, cap);
      MaskIs(slot + 1, k);
      Remainder(slot + 1, if slot + 1 < cap then 0 else 1, cap, if slot + 1 < cap then slot + 1 else 0);
      slot := And(slot + 1, mask);
      d := d + 1;
    }
    StepsOfRing(h, d, cap);
  }

  /** Growth: twice the capacity, at least 16, and nothing carried over. */
  method Grow(len: nat, ghost k: nat) returns (slots: array<Slot>, mask: nat, ghost k': nat)
    requires len == 0 || (len == Pow2(k) && len >= 16)
    ensures fresh(slots) && slots.Length == Pow2(k') == mask + 1
    ensures slots.Length == if len == 0 then 16 else 2 * len
    ensures forall i :: 0 <= i < slots.Length ==> slots[i] == Slot(0, 0)
  {
    var want := if len * 2 < 16 then 16 else len * 2;
    k' := if len == 0 then 4 else k + 1;
    assert Pow2(4) == 16;
    NextPow2Fixed(0, k');
    var newCap := NextPow2(want);
    slots := new Slot[newCap](i => Slot(0, 0));
    mask := newCap - 1;
  }

  /** What the invariant is for: probing from its home slot meets a stored group before any free
      slot, and a group that is not stored is nowhere in the table. */
  lemma ProbeFinds(s: seq<Slot>, lo: nat, hi: nat, g: nat) returns (d: nat)
    requires Holds(s, lo, hi) && s != []
    ensures lo <= g < hi ==>
              && d < |s| && s[Ring(Home(g, |s|), d, |s|)] == Slot(Hash(g), g + 1)
              && forall e: nat :: e < d ==>
                                    Taken(s, Ring(Home(g, |s|), e, |s|)) && s[Ring(Home(g, |s|), e, |s|)].index != g + 1
    ensures !(lo <= g < hi) ==> !Stored(s, g)
  {
    d := 0;
    if lo <= g < hi {
      assert Stored(s, g);
      var i :| 0 <= i < |s| && s[i].index == g + 1;
      var h := Home(g, |s|);
      assert Taken(s, i);
      d := Steps(h, i, |s|);
      RingSteps(h, i, |s|);
      forall e: nat | e < d ensures Taken(s, Ring(h, e, |s|)) && s[Ring(h, e, |s|)].index != g + 1 {
        StepsOfRing(h, e, |s|);
      }
    }
  }

  /** Stores group gi in a table that holds lo .. gi. */
  method Store(slots: array<Slot>, mask: nat, lo: nat, gi: nat, ghost k: nat)
    requires slots.Length == Pow2(k) == mask + 1 && lo <= gi < mask && gi + 1 < TWO32
    requires Holds(slots[..], lo, gi)
    modifies slots
    ensures Holds(slots[..], lo, gi + 1)
  {
    ghost var s := slots[..];
    ghost var free := FreeSlot(s, lo, gi);
    var slot := FindFree(slots, mask, gi, k, free);
    var x := Slot(Hash(gi), (gi + 1) % TWO32);
    StoreHolds(s, lo, gi, slot, x);
    slots[slot] := x;
    assert slots[..] == s[slot := x];
  }

  /** Where a stored group lies, in numbers: its slot holds the whole hash, and every slot that probing
      from its home slot meets before is taken. */
  ghost predicate InPlace(s: seq<Slot>, i: nat)
    requires i < |s| && s[i].index > 0
  {
    var n := |s|;
    var hash := (s[i].index - 1) * 0x9E37_79B9_7F4A_7C15 % 0x1_0000_0000_0000_0000;
    && s[i].hash == hash
    && forall j: nat :: j < n && (j + n - hash % n) % n < (i + n - hash % n) % n ==> s[j].index != 0
  }

  lemma NearerTaken(s: seq<Slot>, h: nat, i: nat, j: nat)
    requires h < |s| && i < |s| && j < |s| && Probed(s, h, i)
    requires (j + |s| - h) % |s| < (i + |s| - h) % |s|
    ensures s[j].index != 0
  {
    StepsIs(h, i, |s|);
    StepsIs(h, j, |s|);
    RingSteps(h, j, |s|);
    assert Taken(s, Ring(h, Steps(h, j, |s|), |s|));
  }

  lemma HoldsInPlace(s: seq<Slot>, lo: nat, hi: nat, k: nat, i: nat)
    requires Holds(s, lo, hi) && |s| == Pow2(k) && i < |s| && s[i].index > 0
    ensures InPlace(s, i)
  {
    var h := Home(s[i].index - 1, |s|);
    HomeIs(s[i].index - 1, k);
    assert Taken(s, i) && Probed(s, h, i);
    forall j: nat | j < |s| && (j + |s| - h) % |s| < (i + |s| - h) % |s| ensures s[j].index != 0 {
      NearerTaken(s, h, i, j);
    }
  }

  ghost predicate EachInPlace(s: seq<Slot>) {
    forall i :: 0 <= i < |s| && s[i].index > 0 ==> InPlace(s, i)
  }

  lemma AllInPlace(s: seq<Slot>, lo: nat, hi: nat, k: nat)
    requires Holds(s, lo, hi) && (s != [] ==> |s| == Pow2(k))
    ensures EachInPlace(s)
  {
    forall i | 0 <= i < |s| && s[i].index > 0 ensures InPlace(s, i) {
      HoldsInPlace(s, lo, hi, k, i);
    }
  }

  lemma EmptyHolds(s: seq<Slot>, g: nat)
    requires forall i :: 0 <= i < |s| ==> !Taken(s, i)
    ensures Holds(s, g, g)
  {
  }

  function MaskOf(len: nat): nat { if len == 0 then 0 else len - 1 }

  /** Capacity and load after gi groups, the last growth having come at group lo. */
  ghost predicate Loaded(len: nat, lo: nat, gi: nat) {
    if gi == 0 then len == 0 && lo == 0
    else
      && len >= 16 && gi <= (len - 1) * 3 / 4
      && if len == 16 then lo == 0 else lo == (len / 2 - 1) * 3 / 4 && 11 <= lo < gi
  }

  lemma LoadedNext(len: nat, lo: nat, gi: nat, len': nat, lo': nat)
    requires Loaded(len, lo, gi)
    requires if gi + 1 > MaskOf(len) * 3 / 4 then len' == (if len == 0 then 16 else 2 * len) && lo' == gi
             else len' == len && lo' == lo
    ensures Loaded(len', lo', gi + 1) && lo' <= gi < len' - 1
  {
  }

  /** The whole of pattern D. For every n below 2^32 all loops end, and the table holds exactly the
      groups stored since the last growth - all n of them exactly when n is at most 11. The last growth
      came when the table of half the size had reached its load bound. */
  method PatternD(n: nat) returns (keys: seq<int>, slots: array<Slot>, mask: nat, lo: nat)
    requires n < TWO32
    ensures |keys| == n && forall i :: 0 <= i < n ==> keys[i] == i
    ensures n > 0 ==> slots.Length == mask + 1 && n <= mask * 3 / 4 && exists k :: slots.Length == Pow2(k)
    ensures lo <= n && Holds(slots[..], lo, n)
    ensures lo == 0 <==> n <= 11
    ensures EachInPlace(slots[..])
    ensures n > 11 ==> slots.Length >= 32 && lo == (slots.Length / 2 - 1) * 3 / 4 && lo < n
  {
    keys, mask, lo := [], 0, 0;
    slots := new Slot[0];
    ghost var k := 0;
    var gi := 0;
    EmptyHolds(slots[..], 0);
    while gi < n
      invariant gi <= n && |keys| == gi && forall i :: 0 <= i < gi ==> keys[i] == i
      invariant fresh(slots)
      invariant mask == MaskOf(slots.Length) && (gi > 0 ==> slots.Length == Pow2(k))
      invariant Loaded(slots.Length, lo, gi)
      invariant lo <= gi && Holds(slots[..], lo, gi)
    {
      keys := keys + [gi];
      ghost var len0, lo0 := slots.Length, lo;
      if gi + 1 > mask * 3 / 4 {
        slots, mask, k := Grow(slots.Length, k);
        lo := gi;
        EmptyHolds(slots[..], lo);
      }
      LoadedNext(len0, lo0, gi, slots.Length, lo);
      Store(slots, mask, lo, gi, k);
      gi := gi + 1;
    }
    AllInPlace(slots[..], lo, n, k);
  }
}
