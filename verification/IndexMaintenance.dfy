/** One batch of index maintenance applied twice to the same index: interleaved in rowid order, and
    as a sorted delete pass followed by a sorted insert pass. */
module IndexMaintenance {
  import opened IndexKeys
  import opened Words

  lemma EightBytes()
    ensures TWO63 < Pow256(8)
  {
    assert Pow256(4) == 0x1_0000_0000;
    assert Pow256(8) == 0x1_0000_0000 * Pow256(4);
  }

  /** A non-negative 64-bit integer as an index key. */
  function KeyOf(v: nat): Key
    requires v < TWO63
  {
    EightBytes();
    Bytes(v, 8)
  }

  /** The cyclic key of any value. */
  function CyclicKey(cycle: nat, v: int): Key
    requires 0 < cycle < TWO63
  {
    KeyOf(v % cycle)
  }

  // ----- the operations

  datatype Op = Op(isDelete: bool, entry: Entry)

  /** A batch of key changes: rowid r, from 1 on, moves from key from[r] to key to[r]. */
  datatype Batch = Batch(from: seq<Key>, to: seq<Key>)

  ghost predicate WellFormed(b: Batch) { |b.from| == |b.to| > 0 }

  /** For rowids 1 .. t: delete the old entry, insert the new one. */
  ghost function Ops(b: Batch, t: nat): seq<Op>
    requires WellFormed(b) && t < |b.from|
  {
    if t == 0 then [] else
    Ops(b, t - 1) + [Op(true, Entry(b.from[t], t)), Op(false, Entry(b.to[t], t))]
  }

  /** Deleting an absent entry is tolerated. */
  ghost function Apply(m: multiset<Entry>, op: Op): multiset<Entry> {
    if op.isDelete then m - multiset{op.entry} else m + multiset{op.entry}
  }

  ghost function ApplyAll(m: multiset<Entry>, ops: seq<Op>): multiset<Entry> {
    if ops == [] then m else Apply(ApplyAll(m, ops[..|ops| - 1]), ops[|ops| - 1])
  }

  function Chosen(ops: seq<Op>, deletes: bool): seq<Entry> {
    if ops == [] then [] else
    Chosen(ops[..|ops| - 1], deletes) +
    if ops[|ops| - 1].isDelete == deletes then [ops[|ops| - 1].entry] else []
  }

  // ----- any batch without an insert before a delete of the same entry can be split in two passes

  ghost predicate DeletesComeFirst(ops: seq<Op>) {
    forall i, j :: 0 <= i < j < |ops| && !ops[i].isDelete && ops[j].isDelete ==> ops[i].entry != ops[j].entry
  }

  lemma {:induction false} ChosenMember(ops: seq<Op>, deletes: bool, e: Entry)
    ensures e in Chosen(ops, deletes) <==> exists i :: 0 <= i < |ops| && ops[i].isDelete == deletes && ops[i].entry == e
  {
    if ops == [] {
    } else {
      var init := ops[..|ops| - 1];
      ChosenMember(init, deletes, e);
      assert forall i :: 0 <= i < |init| ==> init[i] == ops[i];
    }
  }

  lemma SubtractPast(m: multiset<Entry>, d: multiset<Entry>, n: multiset<Entry>, e: Entry)
    requires e !in n
    ensures ((m - d) + n) - multiset{e} == (m - (d + multiset{e})) + n
  {
  }

  /** The interleaved result depends only on which entries are deleted and which are inserted. */
  lemma {:induction false} SplitsInTwoPasses(m: multiset<Entry>, ops: seq<Op>)
    requires DeletesComeFirst(ops)
    ensures ApplyAll(m, ops) == (m - multiset(Chosen(ops, true))) + multiset(Chosen(ops, false))
  {
    if ops != [] {
      var init, op := ops[..|ops| - 1], ops[|ops| - 1];
      SplitsInTwoPasses(m, init);
      var d, n := Chosen(init, true), Chosen(init, false);
      if op.isDelete {
        ChosenMember(init, false, op.entry);
        SubtractPast(m, multiset(d), multiset(n), op.entry);
        assert multiset(d + [op.entry]) == multiset(d) + multiset{op.entry};
        assert n + [] == n;
      } else {
        assert multiset(n + [op.entry]) == multiset(n) + multiset{op.entry};
        assert d + [] == d;
      }
    }
  }

  // ----- the batch of one entry per rowid

  lemma {:induction false} OpsShape(b: Batch, t: nat)
    requires WellFormed(b) && t < |b.from|
    ensures |Ops(b, t)| == 2 * t
    ensures forall k :: 0 <= k < 2 * t ==>
                          Ops(b, t)[k].isDelete == (k % 2 == 0) && Ops(b, t)[k].entry.rowid == k / 2 + 1
  {
    if t == 0 {
    } else {
      OpsShape(b, t - 1);
    }
  }

  /** A rowid's delete comes before its insert, and other rowids have other entries. */
  lemma BatchDeletesFirst(b: Batch, t: nat)
    requires WellFormed(b) && t < |b.from|
    ensures DeletesComeFirst(Ops(b, t))
  {
    OpsShape(b, t);
  }

  /** An index with one entry per rowid: rowid r has key keys[r]. */
  ghost function Entries(keys: seq<Key>): seq<Entry> {
    seq(|keys|, r requires 0 <= r < |keys| => Entry(keys[r], r))
  }

  /** The keys after the first t rowids have moved; a rowid not there before is added. */
  ghost function MovedKeys(init: seq<Key>, b: Batch, t: nat): seq<Key>
    requires WellFormed(b) && t < |b.from|
  {
    if t == 0 then init else
    var ks := MovedKeys(init, b, t - 1);
    if t < |ks| then ks[t := b.to[t]] else ks + [b.to[t]]
  }

  /** The batch deletes what the index holds. */
  ghost predicate Fits(init: seq<Key>, b: Batch) {
    WellFormed(b) && |init| > 0 && forall r :: 1 <= r < |init| && r < |b.from| ==> b.from[r] == init[r]
  }

  lemma {:induction false} MovedKeysShape(init: seq<Key>, b: Batch, t: nat)
    requires Fits(init, b) && t < |b.from|
    ensures |MovedKeys(init, b, t)| == if t < |init| then |init| else t + 1
    ensures forall r :: 0 <= r < |MovedKeys(init, b, t)| ==>
                          (1 <= r <= t && MovedKeys(init, b, t)[r] == b.to[r])
                          || ((r == 0 || t < r) && r < |init| && MovedKeys(init, b, t)[r] == init[r])
  {
    if t == 0 {
    } else {
      MovedKeysShape(init, b, t - 1);
    }
  }

  lemma MoveOne(ks: seq<Key>, t: nat, prior: Key, moved: Key)
    requires t < |ks| ==> ks[t] == prior
    requires t <= |ks|
    ensures var ks' := if t < |ks| then ks[t := moved] else ks + [moved];
            multiset(Entries(ks')) == multiset(Entries(ks)) - multiset{Entry(prior, t)} + multiset{Entry(moved, t)}
  {
    var s := Entries(ks);
    var gone, e := Entry(prior, t), Entry(moved, t);
    if t < |ks| {
      assert Entries(ks[t := moved]) == s[t := e];
      assert s[t] == gone;
    } else {
      assert Entries(ks + [moved]) == s + [e];
      assert gone !in s;
      assert gone !in multiset(s);
      assert multiset(s) - multiset{gone} == multiset(s);
    }
  }

  /** The effect of the delete and the insert of rowid t. */
  ghost function Move(m: multiset<Entry>, b: Batch, t: nat): multiset<Entry>
    requires WellFormed(b) && t < |b.from|
  {
    m - multiset{Entry(b.from[t], t)} + multiset{Entry(b.to[t], t)}
  }

  lemma TwoMore(m: multiset<Entry>, ops: seq<Op>, x: Op, y: Op)
    ensures ApplyAll(m, ops + [x, y]) == Apply(Apply(ApplyAll(m, ops), x), y)
  {
    var all := ops + [x, y];
    assert all[..|all| - 1] == ops + [x];
    assert (ops + [x])[..|ops|] == ops;
  }

  lemma OpsStep(m: multiset<Entry>, b: Batch, t: nat)
    requires WellFormed(b) && 1 <= t < |b.from|
    ensures ApplyAll(m, Ops(b, t)) == Move(ApplyAll(m, Ops(b, t - 1)), b, t)
  {
    TwoMore(m, Ops(b, t - 1), Op(true, Entry(b.from[t], t)), Op(false, Entry(b.to[t], t)));
  }

  lemma MovedStep(init: seq<Key>, b: Batch, t: nat)
    requires Fits(init, b) && 1 <= t < |b.from|
    ensures multiset(Entries(MovedKeys(init, b, t))) == Move(multiset(Entries(MovedKeys(init, b, t - 1))), b, t)
  {
    MovedKeysShape(init, b, t - 1);
    MoveOne(MovedKeys(init, b, t - 1), t, b.from[t], b.to[t]);
  }

  lemma RowidStep(init: seq<Key>, b: Batch, t: nat)
    requires Fits(init, b) && 1 <= t < |b.from|
    requires ApplyAll(multiset(Entries(init)), Ops(b, t - 1)) == multiset(Entries(MovedKeys(init, b, t - 1)))
    ensures ApplyAll(multiset(Entries(init)), Ops(b, t)) == multiset(Entries(MovedKeys(init, b, t)))
  {
    OpsStep(multiset(Entries(init)), b, t);
    MovedStep(init, b, t);
  }

  /** The rowid-order result of any fitting batch. */
  lemma {:induction false} RowidOrderResult(init: seq<Key>, b: Batch, t: nat)
    requires Fits(init, b) && t < |b.from|
    ensures ApplyAll(multiset(Entries(init)), Ops(b, t)) == multiset(Entries(MovedKeys(init, b, t)))
  {
    if t == 0 {
    } else {
      RowidOrderResult(init, b, t - 1);
      RowidStep(init, b, t);
    }
  }

  // ----- the cyclic batch of the experiment

  ghost function CyclicBatch(cycle: nat, touched: nat, shift: int): Batch
    requires 0 < cycle < TWO63
  {
    Batch(seq(touched + 1, r => CyclicKey(cycle, r)), seq(touched + 1, r => CyclicKey(cycle, r + shift)))
  }

  /** Before the batch rowid k has key k. */
  ghost function FirstKeys(cycle: nat): seq<Key>
    requires 0 < cycle < TWO63
  {
    seq(cycle, k requires 0 <= k < cycle => KeyOf(k))
  }

  lemma SmallMod(r: nat, cycle: nat)
    requires r < cycle
    ensures r % cycle == r
  {
  }

  lemma CyclicFits(cycle: nat, touched: nat, shift: int)
    requires 0 < cycle < TWO63
    ensures Fits(FirstKeys(cycle), CyclicBatch(cycle, touched, shift))
  {
    var b := CyclicBatch(cycle, touched, shift);
    forall r | 1 <= r < cycle && r < touched + 1 ensures b.from[r] == FirstKeys(cycle)[r] {
      SmallMod(r, cycle);
    }
  }

  /** What the index holds after the batch. */
  ghost function FinalKeys(cycle: nat, touched: nat, shift: int): seq<Key>
    requires 0 < cycle < TWO63
  {
    MovedKeys(FirstKeys(cycle), CyclicBatch(cycle, touched, shift), touched)
  }

  // ----- the index itself

  /** An index tree, seen as the sequence of its entries in tree order. */
  class IndexTree {
    var entries: seq<Entry>

    ghost predicate Valid()
      reads this
    {
      Sorted(entries)
    }

    constructor ()
      ensures Valid() && entries == []
    {
      entries := [];
    }

    /** The append-hinted insert: past the last entry it appends, otherwise it takes the full path. */
    method AppendHinted(e: Entry) returns (appended: bool)
      requires Valid()
      modifies this
      ensures Valid() && multiset(entries) == old(multiset(entries)) + multiset{e}
      ensures appended == (old(entries) == [] || Less(old(entries)[|old(entries)| - 1], e))
      ensures appended ==> entries == old(entries) + [e]
    {
      appended := entries == [] || Less(entries[|entries| - 1], e);
      if appended {
        AppendSorted(entries, e);
        entries := entries + [e];
      } else {
        InsertSorted(entries, e);
        InsertContents(entries, e);
        entries := Insert(entries, e);
      }
    }

    method InsertIndex(e: Entry)
      requires Valid()
      modifies this
      ensures Valid() && multiset(entries) == old(multiset(entries)) + multiset{e}
    {
      InsertSorted(entries, e);
      InsertContents(entries, e);
      entries := Insert(entries, e);
    }

    method DeleteIndex(e: Entry) returns (found: bool)
      requires Valid()
      modifies this
      ensures Valid() && multiset(entries) == old(multiset(entries)) - multiset{e}
      ensures found == (e in old(entries))
    {
      found := e in entries;
      RemoveSorted(entries, e);
      RemoveContents(entries, e);
      entries := Remove(entries, e);
    }
  }

  lemma AppendSorted(s: seq<Entry>, e: Entry)
    requires Sorted(s) && (s == [] || Less(s[|s| - 1], e))
    ensures Sorted(s + [e])
  {
    forall i | 0 <= i < |s| ensures !Less(e, s[i]) {
      Total(s[|s| - 1], e);
      if i < |s| - 1 { Transitive(s[i], s[|s| - 1], e); }
    }
  }

  /** The bulk build. Every key appends: the full insert path is never taken. */
  method Build(cycle: nat) returns (t: IndexTree)
    requires 0 < cycle < TWO63
    ensures fresh(t) && t.Valid() && t.entries == Entries(FirstKeys(cycle))
  {
    t := new IndexTree();
    var k := 0;
    ghost var target := Entries(FirstKeys(cycle));
    while k < cycle
      invariant k <= cycle && fresh(t) && t.Valid()
      invariant t.entries == target[..k]
    {
      var e := Entry(KeyOf(k), k);
      NextEntry(target, k);
      if k > 0 { Ascending(k - 1, k); }
      var appended := t.AppendHinted(e);
      assert appended;
      k := k + 1;
    }
    assert target[..k] == target;
  }

  lemma NextEntry(s: seq<Entry>, k: nat)
    requires k < |s|
    ensures s[..k + 1] == s[..k] + [s[k]]
  {
  }

  lemma Ascending(u: nat, v: nat)
    requires u < v < TWO63
    ensures Less(Entry(KeyOf(u), u), Entry(KeyOf(v), v))
  {
    EightBytes();
    BytesOrder(u, v, 8);
  }

  lemma ApplyNext(m: multiset<Entry>, ops: seq<Op>, i: nat)
    requires i < |ops|
    ensures ApplyAll(m, ops[..i + 1]) == Apply(ApplyAll(m, ops[..i]), ops[i])
  {
    assert ops[..i + 1][..i] == ops[..i];
  }

  method ApplyOne(t: IndexTree, op: Op)
    requires t.Valid()
    modifies t
    ensures t.Valid() && multiset(t.entries) == Apply(old(multiset(t.entries)), op)
  {
    if op.isDelete {
      var found := t.DeleteIndex(op.entry);
    } else {
      t.InsertIndex(op.entry);
    }
  }

  lemma AllOps<T>(s: seq<T>)
    ensures s[..0] == [] && s[..|s|] == s
  {
  }

  /** Rowid order: the operations as they come. */
  method ApplyInOrder(t: IndexTree, ops: seq<Op>)
    requires t.Valid()
    modifies t
    ensures t.Valid() && multiset(t.entries) == ApplyAll(old(multiset(t.entries)), ops)
  {
    ghost var m := multiset(t.entries);
    var i := 0;
    AllOps(ops);
    while i < |ops|
      invariant i <= |ops| && t.Valid() && multiset(t.entries) == ApplyAll(m, ops[..i])
    {
      ApplyNext(m, ops, i);
      ApplyOne(t, ops[i]);
      i := i + 1;
    }
  }

  /** Sorted order: all deletes in key order, then all inserts in key order. */
  method ApplySorted(t: IndexTree, ops: seq<Op>)
    requires t.Valid()
    modifies t
    ensures t.Valid()
    ensures multiset(t.entries)
         == (old(multiset(t.entries)) - multiset(Chosen(ops, true))) + multiset(Chosen(ops, false))
  {
    var dels: seq<Entry>, ins: seq<Entry> := [], [];
    var i := 0;
    while i < |ops|
      invariant i <= |ops|
      invariant dels == Chosen(ops[..i], true) && ins == Chosen(ops[..i], false)
    {
      assert ops[..i + 1][..i] == ops[..i];
      if ops[i].isDelete { dels := dels + [ops[i].entry]; } else { ins := ins + [ops[i].entry]; }
      i := i + 1;
    }
    assert ops[..i] == ops;
    SortSpec(dels);
    SortSpec(ins);
    dels := Sort(dels);
    ins := Sort(ins);
    DeletePass(t, dels);
    InsertPass(t, ins);
  }

  lemma NextOfPass(m: multiset<Entry>, s: seq<Entry>, i: nat)
    requires i < |s|
    ensures (m - multiset(s[..i])) - multiset{s[i]} == m - multiset(s[..i + 1])
    ensures (m + multiset(s[..i])) + multiset{s[i]} == m + multiset(s[..i + 1])
  {
    NextEntry(s, i);
    assert multiset(s[..i] + [s[i]]) == multiset(s[..i]) + multiset{s[i]};
  }

  method DeletePass(t: IndexTree, dels: seq<Entry>)
    requires t.Valid()
    modifies t
    ensures t.Valid() && multiset(t.entries) == old(multiset(t.entries)) - multiset(dels)
  {
    var i := 0;
    while i < |dels|
      invariant i <= |dels| && t.Valid()
      invariant multiset(t.entries) == old(multiset(t.entries)) - multiset(dels[..i])
    {
      NextOfPass(old(multiset(t.entries)), dels, i);
      var found := t.DeleteIndex(dels[i]);
      i := i + 1;
    }
    assert dels[..i] == dels;
  }

  method InsertPass(t: IndexTree, ins: seq<Entry>)
    requires t.Valid()
    modifies t
    ensures t.Valid() && multiset(t.entries) == old(multiset(t.entries)) + multiset(ins)
  {
    var i := 0;
    while i < |ins|
      invariant i <= |ins| && t.Valid()
      invariant multiset(t.entries) == old(multiset(t.entries)) + multiset(ins[..i])
    {
      NextOfPass(old(multiset(t.entries)), ins, i);
      t.InsertIndex(ins[i]);
      i := i + 1;
    }
    assert ins[..i] == ins;
  }

  method MakeOps(cycle: nat, touched: nat, shift: int) returns (ops: seq<Op>)
    requires 0 < cycle < TWO63
    ensures ops == Ops(CyclicBatch(cycle, touched, shift), touched)
  {
    ops := [];
    ghost var b := CyclicBatch(cycle, touched, shift);
    var i := 1;
    while i <= touched
      invariant 1 <= i <= touched + 1 && ops == Ops(b, i - 1)
    {
      assert b.from[i] == CyclicKey(cycle, i) && b.to[i] == CyclicKey(cycle, i + shift);
      var del, ins := Op(true, Entry(CyclicKey(cycle, i), i)), Op(false, Entry(CyclicKey(cycle, i + shift), i));
      ops := ops + [del, ins];
      i := i + 1;
    }
  }

  /** Both orders leave the very same index: the same entries in the same order, one per rowid. */
  method ExperimentF(cycle: nat, touched: nat, shift: int) returns (rowidOrder: seq<Entry>, sortedOrder: seq<Entry>)
    requires 0 < cycle < TWO63
    ensures rowidOrder == sortedOrder
    ensures Sorted(rowidOrder) && multiset(rowidOrder) == multiset(Entries(FinalKeys(cycle, touched, shift)))
  {
    ghost var b := CyclicBatch(cycle, touched, shift);
    var ops := MakeOps(cycle, touched, shift);
    var t1 := Build(cycle);
    ApplyInOrder(t1, ops);
    rowidOrder := t1.entries;
    var t2 := Build(cycle);
    ApplySorted(t2, ops);
    sortedOrder := t2.entries;
    BatchDeletesFirst(b, touched);
    SplitsInTwoPasses(multiset(Entries(FirstKeys(cycle))), ops);
    SortedIsUnique(rowidOrder, sortedOrder);
    CyclicFits(cycle, touched, shift);
    RowidOrderResult(FirstKeys(cycle), b, touched);
  }

  lemma KeyValue(v: nat)
    requires v < TWO63
    ensures Value(KeyOf(v)) == v
  {
    EightBytes();
    ValueOfBytes(v, 8);
  }

  lemma {:induction false} OpAt(b: Batch, t: nat, i: nat)
    requires WellFormed(b) && t < |b.from| && 1 <= i <= t
    ensures |Ops(b, t)| == 2 * t
    ensures Ops(b, t)[2 * i - 2] == Op(true, Entry(b.from[i], i))
    ensures Ops(b, t)[2 * i - 1] == Op(false, Entry(b.to[i], i))
  {
    OpsShape(b, t - 1);
    if i < t {
      OpAt(b, t - 1, i);
    }
  }

  /** Rowid i first leaves key i mod cycle and then gets key (i + shift) mod cycle. */
  lemma OpsMeaning(cycle: nat, touched: nat, shift: int, i: nat)
    requires 0 < cycle < TWO63 && 1 <= i <= touched
    ensures var ops := Ops(CyclicBatch(cycle, touched, shift), touched);
            && |ops| == 2 * touched
            && ops[2 * i - 2].isDelete && ops[2 * i - 2].entry.rowid == i
            && Value(ops[2 * i - 2].entry.key) == i % cycle
            && !ops[2 * i - 1].isDelete && ops[2 * i - 1].entry.rowid == i
            && Value(ops[2 * i - 1].entry.key) == (i + shift) % cycle
  {
    OpAt(CyclicBatch(cycle, touched, shift), touched, i);
    KeyValue(i % cycle);
    KeyValue((i + shift) % cycle);
  }

  /** The key of each rowid after the batch, and the exact condition for the rowids to stay the same:
      the batch touches fewer rowids than the cycle has. */
  lemma FinalKeysMeaning(cycle: nat, touched: nat, shift: int)
    requires 0 < cycle < TWO63
    ensures |FinalKeys(cycle, touched, shift)| == cycle <==> touched < cycle
    ensures forall r :: 0 <= r < |FinalKeys(cycle, touched, shift)| ==>
                          Value(FinalKeys(cycle, touched, shift)[r])
                          == if 1 <= r <= touched then (r + shift) % cycle else r
  {
    var b := CyclicBatch(cycle, touched, shift);
    var ks := FinalKeys(cycle, touched, shift);
    CyclicFits(cycle, touched, shift);
    MovedKeysShape(FirstKeys(cycle), b, touched);
    forall r | 0 <= r < |ks| ensures Value(ks[r]) == if 1 <= r <= touched then (r + shift) % cycle else r {
      if 1 <= r <= touched { KeyValue((r + shift) % cycle); } else { KeyValue(r); }
    }
  }
}
