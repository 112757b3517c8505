/** The build and churn of the M6 probe over the events table: batched build, band update, band
    delete and batched reinsert. Arithmetic on u64 wraps, as in the release build the probe runs as. */
module ChurnProbe {
  import opened Finite
  import opened Words

  type Events = map<int, int>

  const BATCH: nat := 20000

  function Add64(a: int, b: int): int { (a + b) % TWO64 }
  function Sub64(a: int, b: int): int { (a - b) % TWO64 }
  function Min(a: int, b: int): int { if a < b then a else b }

  /** The value of k for row i. */
  function GenK(i: int, adjust: bool, cap: int): int {
    i % 1_000_000 + if adjust && InBand(i, cap) then 1 else 0
  }

  predicate InBand(i: int, cap: int) { i % 20 == 7 && i <= cap }

  predicate Between(i: int, lo: int, hi: int) { lo <= i <= hi }

  /** The generated rows lo .. hi. */
  function Generated(lo: int, hi: int, adjust: bool, cap: int): Events
    decreases hi - lo
  {
    if hi < lo then map[] else Generated(lo, hi - 1, adjust, cap)[hi := GenK(hi, adjust, cap)]
  }

  lemma {:induction false} GeneratedRows(lo: int, hi: int, adjust: bool, cap: int)
    ensures forall i :: i in Generated(lo, hi, adjust, cap) <==> Between(i, lo, hi)
    ensures forall i :: i in Generated(lo, hi, adjust, cap) ==>
                          Generated(lo, hi, adjust, cap)[i] == GenK(i, adjust, cap)
    decreases hi - lo
  {
    if hi < lo {
    } else {
      GeneratedRows(lo, hi - 1, adjust, cap);
    }
  }

  lemma {:induction false} JoinGenerated(events: Events, lo: int, mid: int, hi: int, adjust: bool, cap: int)
    requires lo - 1 <= mid <= hi
    ensures (events + Generated(lo, mid, adjust, cap)) + Generated(mid + 1, hi, adjust, cap)
         == events + Generated(lo, hi, adjust, cap)
    decreases hi - mid
  {
    if mid == hi {
      assert events + Generated(lo, mid, adjust, cap) + map[] == events + Generated(lo, mid, adjust, cap);
    } else {
      JoinGenerated(events, lo, mid, hi - 1, adjust, cap);
      PutUnion(events + Generated(lo, mid, adjust, cap), Generated(mid + 1, hi - 1, adjust, cap),
               hi, GenK(hi, adjust, cap));
      PutUnion(events, Generated(lo, hi - 1, adjust, cap), hi, GenK(hi, adjust, cap));
    }
  }

  // ----- statements

  /** No id of the table is between lo and hi. */
  predicate Clear(events: Events, lo: int, hi: int) {
    forall i :: i in events ==> !Between(i, lo, hi)
  }

  lemma ClearNext(events: Events, lo: int, i: int, adjust: bool, cap: int)
    requires Clear(events, lo, i - 1) && lo <= i
    ensures Clear(events, lo, i) <==> i !in events + Generated(lo, i - 1, adjust, cap)
  {
    GeneratedRows(lo, i - 1, adjust, cap);
  }

  lemma ClearAll(events: Events, lo: int, i: int, hi: int)
    requires lo <= i <= hi && !Clear(events, lo, i)
    ensures !Clear(events, lo, hi)
  {
  }

  /** INSERT of the rows start + 1 .. start + n as one statement: all or, on a taken id, none. */
  method InsertBatch(events: Events, start: int, n: nat, adjust: bool, cap: int) returns (ok: bool, events': Events)
    ensures ok <==> forall i :: i in events ==> !(start < i <= start + n)
    ensures events' == if ok then events + Generated(start + 1, start + n, adjust, cap) else events
  {
    events', ok := events, true;
    var j := 0;
    while j < n
      invariant 0 <= j <= n && ok
      invariant Clear(events, start + 1, start + j)
      invariant events' == events + Generated(start + 1, start + j, adjust, cap)
    {
      var i := start + j + 1;
      ClearNext(events, start + 1, i, adjust, cap);
      if i in events' {
        ClearAll(events, start + 1, i, start + n);
        return false, events;
      }
      PutUnion(events, Generated(start + 1, start + j, adjust, cap), i, GenK(i, adjust, cap));
      events' := events'[i := GenK(i, adjust, cap)];
      j := j + 1;
    }
  }

  /** UPDATE events SET k = k + 1 WHERE id % 20 = 7 AND id <= cap. */
  function BandUpdate(events: Events, cap: int): Events {
    map i | i in events :: if InBand(i, cap) then events[i] + 1 else events[i]
  }

  /** DELETE FROM events WHERE id >= lo AND id <= hi. */
  function DeleteRange(events: Events, lo: int, hi: int): Events {
    map i | i in events && !Between(i, lo, hi) :: events[i]
  }

  // ----- build

  lemma ClearAbove(nextId: nat, n: nat, cap: int)
    ensures Clear(Generated(1, nextId, false, cap), nextId + 1, nextId + n)
  {
    GeneratedRows(1, nextId, false, cap);
  }

  /** Every batch size gives the same table: rows 1 .. rows, once each. */
  method Build(rows: nat, cap: int) returns (ok: bool, events: Events)
    requires rows < TWO63
    ensures ok && events == Generated(1, rows, false, cap)
  {
    events, ok := map[], true;
    var batch := Min(BATCH, rows);
    var nextId := 0;
    while nextId < rows
      invariant 0 <= nextId <= rows && ok
      invariant events == Generated(1, nextId, false, cap)
    {
      var n := Min(batch, rows - nextId);
      ClearAbove(nextId, n, cap);
      JoinGenerated(map[], 1, nextId, nextId + n, false, cap);
      assert forall m: Events :: map[] + m == m;
      ok, events := InsertBatch(events, nextId, n, false, cap);
      nextId := nextId + n;
    }
  }

  // ----- churn

  /** First and last id of the deleted band, as the program computes them. */
  function BandA(rows: nat): int { rows / 2 }
  function BandB(rows: nat): int { Sub64(BandA(rows) + rows / 50, 1) }
  function BandN(rows: nat): int { Add64(Sub64(BandB(rows), BandA(rows)), 1) }

  lemma NoWrap(x: int)
    requires 0 <= x < TWO64
    ensures x % TWO64 == x
  {
  }

  lemma Band(rows: nat)
    requires 2 <= rows < TWO63
    ensures BandA(rows) >= 1 && BandB(rows) == BandA(rows) + rows / 50 - 1 && BandN(rows) == rows / 50
  {
    NoWrap(BandA(rows) + rows / 50 - 1);
    BandWidth(rows / 50);
  }

  /** The width of a band from its two ends, also when it is empty. */
  lemma BandWidth(d: nat)
    requires d < TWO64
    ensures Add64(Sub64(d, 1), 1) == d
  {
    if d == 0 {
      assert Sub64(d, 1) == TWO64 - 1;
    } else {
      NoWrap(d - 1);
      NoWrap(d);
    }
  }

  lemma EmptyBand(rows: nat)
    requires rows < 2
    ensures BandA(rows) == 0 && BandB(rows) == TWO64 - 1 && BandN(rows) == 0
  {
  }

  lemma StillClear(events: Events, first: int, next: int, n: nat, last: int, cap: int)
    requires Clear(events, first, last) && first - 1 <= next && next + n <= last
    ensures Clear(events + Generated(first, next, true, cap), next + 1, next + n)
  {
    GeneratedRows(first, next, true, cap);
  }

  /** Reinserts the band in batches. */
  method Reinsert(events: Events, first: int, count: nat, cap: int) returns (ok: bool, events': Events)
    requires count > 0 ==> 1 <= first && first + count < TWO64
    requires Clear(events, first, first + count - 1)
    ensures ok && events' == events + Generated(first, first + count - 1, true, cap)
  {
    events', ok := events, true;
    var left := count;
    var next := Sub64(first, 1);
    var batch := Min(BATCH, if count < 1 then 1 else count);
    assert events + map[] == events;
    while left > 0
      invariant 0 <= left <= count && ok && 1 <= batch
      invariant count > 0 ==> next == first - 1 + (count - left)
      invariant events' == events + Generated(first, first - 1 + (count - left), true, cap)
      decreases left
    {
      var n := Min(batch, left);
      JoinGenerated(events, first, next, next + n, true, cap);
      StillClear(events, first, next, n, first + count - 1, cap);
      ok, events' := InsertBatch(events', next, n, true, cap);
      assert Add64(next, n) == next + n;
      next := Add64(next, n);
      left := left - n;
    }
  }

  /** The churn, on any table. With at least two rows the delete and the reinsert cover the same
      ids; with fewer the band end wraps around, everything from id 0 up goes and nothing comes back. */
  method Churn(events: Events, rows: nat, cap: int) returns (ok: bool, events': Events)
    requires rows < TWO63
    ensures ok
    ensures rows >= 2 ==> Churned(events, events', rows / 2, rows / 2 + rows / 50 - 1, cap)
    ensures rows < 2 ==> Cleared(events, events', cap)
  {
    if rows >= 2 { Band(rows); } else { EmptyBand(rows); }
    events' := BandUpdate(events, cap);
    events' := DeleteRange(events', BandA(rows), BandB(rows));
    ghost var kept := events';
    ok, events' := Reinsert(events', BandA(rows), BandN(rows), cap);
    if rows >= 2 {
      GeneratedRows(BandA(rows), BandB(rows), true, cap);
    } else {
      assert kept + map[] == kept;
    }
  }

  /** What the churn leaves, row by row: the band a .. b is there with generated values, and every other row
      as it was, with one added for the ids up to cap that leave 7 when divided by 20. */
  ghost predicate Churned(events: Events, events': Events, a: int, b: int, cap: int) {
    && (forall i :: i in events' <==> a <= i <= b || i in events)
    && (forall i :: i in events' && a <= i <= b ==>
                      events'[i] == i % 1_000_000 + if i % 20 == 7 && i <= cap then 1 else 0)
    && (forall i :: i in events' && !(a <= i <= b) ==>
                      events'[i] == events[i] + if i % 20 == 7 && i <= cap then 1 else 0)
  }

  /** No id of an unsigned 64-bit number is left; rows below 0 are only updated. */
  ghost predicate Cleared(events: Events, events': Events, cap: int) {
    && (forall i :: i in events' <==> i in events && !(0 <= i <= 0xFFFF_FFFF_FFFF_FFFF))
    && (forall i :: i in events' ==> events'[i] == events[i] + if i % 20 == 7 && i <= cap then 1 else 0)
  }

  /** The round trip that the probe relies on: the churned table is the adjusted generation of all
      rows - exactly when the table does not have one single row. */
  method BuildAndChurn(rows: nat, cap: int) returns (events: Events)
    requires rows < TWO63
    ensures events == Generated(1, rows, true, cap) <==> rows != 1
    ensures rows == 1 ==> events == map[]
    ensures rows != 1 ==> Adjusted(events, rows, cap)
  {
    var ok;
    ok, events := Build(rows, cap);
    GeneratedRows(1, rows, false, cap);
    GeneratedRows(1, rows, true, cap);
    assert forall i :: i in events <==> Between(i, 1, rows);
    ok, events := Churn(events, rows, cap);
    if rows < 2 {
      assert forall i :: i !in events;
    } else {
      assert Adjusted(events, rows, cap);
    }
    AdjustedIs(events, rows, cap);
  }

  lemma AdjustedIs(events: Events, rows: nat, cap: int)
    ensures events == Generated(1, rows, true, cap) <==> Adjusted(events, rows, cap)
  {
    GeneratedRows(1, rows, true, cap);
    var whole := Generated(1, rows, true, cap);
    forall i ensures i in whole <==> 1 <= i <= rows {
      assert i in whole <==> Between(i, 1, rows);
    }
    if Adjusted(events, rows, cap) {
      forall i ensures i in events <==> i in whole {}
      forall i | i in events ensures events[i] == whole[i] {}
    }
  }

  /** Rows 1 .. rows, each with its generated value, and one more on the band of cap. */
  ghost predicate Adjusted(events: Events, rows: nat, cap: int) {
    && (forall i :: i in events <==> 1 <= i <= rows)
    && (forall i :: i in events ==> events[i] == i % 1_000_000 + if i % 20 == 7 && i <= cap then 1 else 0)
  }

  // ----- the M6 mass delete

  predicate Doomed(i: int, m6Cap: int) { i <= m6Cap && i % 10 < 4 }

  /** DELETE FROM events WHERE id <= m6Cap AND id % 10 < 4. */
  function MassDelete(events: Events, m6Cap: int): Events {
    map i | i in events && !Doomed(i, m6Cap) :: events[i]
  }

  /** The number of deleted rows as the program counts it. */
  function CountDeleted(n: nat): nat {
    if n == 0 then 0 else CountDeleted(n - 1) + if n % 10 < 4 then 1 else 0
  }

  /** The ids that survive among 1 .. rows. */
  function Survivors(rows: nat, m6Cap: int): set<int> {
    if rows == 0 then {} else Survivors(rows - 1, m6Cap) + if Doomed(rows, m6Cap) then {} else {rows}
  }

  lemma {:induction false} SurvivorIds(rows: nat, m6Cap: int)
    ensures forall i :: i in Survivors(rows, m6Cap) <==> 1 <= i <= rows && !Doomed(i, m6Cap)
  {
    if rows == 0 {
    } else {
      SurvivorIds(rows - 1, m6Cap);
    }
  }

  lemma {:induction false} SurvivorCount(rows: nat, m6Cap: nat)
    ensures |Survivors(rows, m6Cap)| == rows - CountDeleted(Min(m6Cap, rows))
  {
    if rows == 0 {
    } else {
      SurvivorCount(rows - 1, m6Cap);
      CountNext(rows, m6Cap);
      SurvivorNext(rows, m6Cap);
    }
  }

  lemma CountNext(rows: nat, m6Cap: nat)
    requires rows > 0
    ensures CountDeleted(Min(m6Cap, rows)) == CountDeleted(Min(m6Cap, rows - 1)) + if Doomed(rows, m6Cap) then 1 else 0
  {
  }

  lemma SurvivorNext(rows: nat, m6Cap: nat)
    requires rows > 0
    ensures |Survivors(rows, m6Cap)| == |Survivors(rows - 1, m6Cap)| + if Doomed(rows, m6Cap) then 0 else 1
  {
    SurvivorIds(rows - 1, m6Cap);
  }

  lemma SurvivorKeys(rows: nat, cap: int, m6Cap: nat)
    ensures MassDelete(Generated(1, rows, true, cap), m6Cap).Keys == Survivors(rows, m6Cap)
  {
    GeneratedRows(1, rows, true, cap);
    SurvivorIds(rows, m6Cap);
    var t := Generated(1, rows, true, cap);
    forall i ensures i in MassDelete(t, m6Cap) <==> i in Survivors(rows, m6Cap) {
      assert i in t <==> Between(i, 1, rows);
    }
  }

  /** The surviving count is the expected one, for every size and cap. */
  lemma MassDeleteCount(rows: nat, cap: int, m6Cap: nat)
    ensures |MassDelete(Generated(1, rows, true, cap), m6Cap)| == rows - CountDeleted(Min(m6Cap, rows))
    ensures forall i :: i in MassDelete(Generated(1, rows, true, cap), m6Cap)
                        <==> 1 <= i <= rows && !(i <= m6Cap && i % 10 < 4)
  {
    SurvivorIds(rows, m6Cap);
    SurvivorCount(rows, m6Cap);
    SurvivorKeys(rows, cap, m6Cap);
    assert |MassDelete(Generated(1, rows, true, cap), m6Cap)|
        == |MassDelete(Generated(1, rows, true, cap), m6Cap).Keys|;
  }
}
