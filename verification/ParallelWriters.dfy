/** Parallel BEGIN CONCURRENT bulk writers on one table: each writer inserts its own run of ids in
    one transaction. Any interleaving of their statements and commits is allowed, and the engine may fail
    any of them. */
module ParallelWriters {
  import opened Finite
  import opened RowStore

  type Table = map<int, int>

  /** writers threads insert perWriter rows each; writer w uses the ids w * stride, w * stride + 1, ...
      unwinds says how the program is built: a panic unwinds its own thread only, or it aborts them all. */
  datatype Config = Config(writers: nat, perWriter: nat, stride: nat, unwinds: bool)

  datatype Phase = Ready | Open | Landed | Panicked
  datatype Writer = Writer(phase: Phase, next: nat, txn: Txn<int, int>)
  datatype State = State(db: Db<int, int>, writers: seq<Writer>)

  /** Fail is any error of the engine: a failed begin or statement, or a commit refused for what other
      reason so ever, say a conflict on a page. */
  datatype Action = Begin(w: nat) | Insert(w: nat, e: nat) | Land(w: nat) | Fail(w: nat)

  function RowId(c: Config, w: nat, i: nat): int { w * c.stride + i }

  function Init(c: Config): State {
    State(Start(map[]), seq(c.writers, _ => Writer(Ready, 0, Txn(0, map[]))))
  }

  predicate NoPanic(s: State) {
    forall w :: 0 <= w < |s.writers| ==> !s.writers[w].phase.Panicked?
  }

  /** Where panics abort, the first one ends the process. */
  predicate Alive(c: Config, s: State) { c.unwinds || NoPanic(s) }

  predicate Ended(x: Writer) { x.phase.Landed? || x.phase.Panicked? }

  predicate Enabled(c: Config, s: State, a: Action) {
    && Alive(c, s) && a.w < |s.writers| && |s.db.versions| > 0
    && var x := s.writers[a.w];
    match a
    case Begin(_) => x.phase.Ready?
    case Insert(_, e) => x.phase.Open? && x.next < c.perWriter && x.txn.begin <= e < |s.db.versions|
    case Land(_) => x.phase.Open? && x.next == c.perWriter
    case Fail(_) => !Ended(x)
  }

  /** A taken id, a failed validation or a failing engine is an error that the writer thread unwraps. */
  function Step(c: Config, s: State, a: Action): State
    requires Enabled(c, s, a)
  {
    var x := s.writers[a.w];
    match a
    case Begin(w) => s.(writers := s.writers[w := Writer(Open, 0, Txn(|s.db.versions| - 1, map[]))])
    case Insert(w, e) =>
      var id := RowId(c, w, x.next);
      s.(writers := s.writers[w :=
      if id in View(s.db, x.txn, e) then x.(phase := Panicked)
      else x.(next := x.next + 1, txn := x.txn.(writes := x.txn.writes[id := w]))])
    case Land(w) =>
      if Validates(s.db, x.txn) then State(Commit(s.db, x.txn), s.writers[w := x.(phase := Landed)])
      else s.(writers := s.writers[w := x.(phase := Panicked)])
    case Fail(w) => s.(writers := s.writers[w := x.(phase := Panicked)])
  }

  ghost predicate IsRun(c: Config, ss: seq<State>, acts: seq<Action>) {
    && |ss| == |acts| + 1 && ss[0] == Init(c)
    && forall i :: 0 <= i < |acts| ==> Enabled(c, ss[i], acts[i]) && ss[i + 1] == Step(c, ss[i], acts[i])
  }

  // ----- ids

  ghost predicate Disjoint(c: Config) {
    forall v: nat, i: nat, w: nat, j: nat ::
      v < c.writers && w < c.writers && i < c.perWriter && j < c.perWriter && (v, i) != (w, j) ==>
        RowId(c, v, i) != RowId(c, w, j)
  }

  lemma StrideGap(v: nat, w: nat, stride: nat)
    requires v < w
    ensures v * stride + stride <= w * stride
  {
    assert w * stride == v * stride + (w - v) * stride;
    assert (w - v) * stride == stride + (w - v - 1) * stride;
  }

  /** The writers' ids are pairwise distinct exactly when the stride is no shorter than a run. */
  lemma DisjointIff(c: Config)
    ensures Disjoint(c) <==> c.writers <= 1 || c.stride >= c.perWriter
  {
    if c.writers > 1 && c.stride < c.perWriter {
      assert RowId(c, 0, c.stride) == RowId(c, 1, 0);
    } else {
      forall v: nat, i: nat, w: nat, j: nat
        | v < c.writers && w < c.writers && i < c.perWriter && j < c.perWriter && (v, i) != (w, j)
        ensures RowId(c, v, i) != RowId(c, w, j)
      {
        if v < w { StrideGap(v, w, c.stride); }
        if w < v { StrideGap(w, v, c.stride); }
      }
    }
  }

  // ----- what has landed

  /** The first k rows of writer w. */
  function Rows(c: Config, w: nat, k: nat): Table {
    if k == 0 then map[] else Rows(c, w, k - 1)[RowId(c, w, k - 1) := w]
  }

  lemma {:induction false} RowsKeys(c: Config, w: nat, k: nat)
    ensures forall id :: id in Rows(c, w, k) <==> exists i: nat :: i < k && id == RowId(c, w, i)
    ensures forall id :: id in Rows(c, w, k) ==> Rows(c, w, k)[id] == w
  {
    if k == 0 {
    } else {
      RowsKeys(c, w, k - 1);
    }
  }

  lemma RowsApart(c: Config, v: nat, i: nat, w: nat, k: nat)
    requires Disjoint(c) && v < c.writers && w < c.writers && i < c.perWriter && k <= c.perWriter
    requires v != w || k <= i
    ensures RowId(c, v, i) !in Rows(c, w, k)
  {
    RowsKeys(c, w, k);
  }

  /** Everything the landed writers inserted. */
  function LandedRows(c: Config, ws: seq<Writer>): Table {
    if ws == [] then map[]
    else
      var n := |ws| - 1;
      LandedRows(c, ws[..n]) + if ws[n].phase.Landed? then Rows(c, n, c.perWriter) else map[]
  }

  lemma {:induction false} NotLanded(c: Config, ws: seq<Writer>, v: nat, i: nat)
    requires Disjoint(c) && |ws| <= c.writers && v < c.writers && i < c.perWriter
    requires v < |ws| ==> !ws[v].phase.Landed?
    ensures RowId(c, v, i) !in LandedRows(c, ws)
  {
    if ws == [] {
    } else {
      var n := |ws| - 1;
      NotLanded(c, ws[..n], v, i);
      if v != n { RowsApart(c, v, i, n, c.perWriter); }
    }
  }

  lemma {:induction false} LandedKeys(c: Config, ws: seq<Writer>, w: nat)
    requires w < |ws| && ws[w].phase.Landed?
    ensures Rows(c, w, c.perWriter).Keys <= LandedRows(c, ws).Keys
  {
    var n := |ws| - 1;
    if w < n {
      LandedKeys(c, ws[..n], w);
    }
  }

  /** One more writer lands: in whatever order, its rows are added to the rest. */
  lemma {:induction false} LandOne(c: Config, ws: seq<Writer>, w: nat, x: Writer)
    requires w < |ws| && !ws[w].phase.Landed? && x.phase.Landed?
    requires Rows(c, w, c.perWriter).Keys !! LandedRows(c, ws).Keys
    ensures LandedRows(c, ws[w := x]) == LandedRows(c, ws) + Rows(c, w, c.perWriter)
  {
    var n := |ws| - 1;
    var mine := Rows(c, w, c.perWriter);
    var ws' := ws[w := x];
    if w == n {
      assert ws'[..n] == ws[..n];
      assert LandedRows(c, ws[..n]) + map[] == LandedRows(c, ws[..n]);
    } else {
      var last: Table := if ws[n].phase.Landed? then Rows(c, n, c.perWriter) else map[];
      assert LandedRows(c, ws) == LandedRows(c, ws[..n]) + last;
      LandOne(c, ws[..n], w, x);
      assert ws'[..n] == ws[..n][w := x];
      UnionSwap(LandedRows(c, ws[..n]), mine, last);
    }
  }

  /** How many writers have landed, and the sum of their numbers. */
  function LandedCount(ws: seq<Writer>): nat {
    if ws == [] then 0
    else LandedCount(ws[..|ws| - 1]) + if ws[|ws| - 1].phase.Landed? then 1 else 0
  }

  function LandedSum(ws: seq<Writer>): nat {
    if ws == [] then 0
    else LandedSum(ws[..|ws| - 1]) + if ws[|ws| - 1].phase.Landed? then |ws| - 1 else 0
  }

  lemma {:induction false} CountOne(ws: seq<Writer>, w: nat, x: Writer)
    requires w < |ws| && !ws[w].phase.Landed?
    ensures LandedCount(ws[w := x]) == LandedCount(ws) + if x.phase.Landed? then 1 else 0
    ensures LandedSum(ws[w := x]) == LandedSum(ws) + if x.phase.Landed? then w else 0
  {
    var n := |ws| - 1;
    if w == n {
      assert ws[w := x][..n] == ws[..n];
    } else {
      CountOne(ws[..n], w, x);
      assert ws[w := x][..n] == ws[..n][w := x];
    }
  }

  lemma {:induction false} CountAll(ws: seq<Writer>)
    requires forall x :: x in ws ==> x.phase.Landed?
    ensures LandedCount(ws) == |ws| && 2 * LandedSum(ws) == |ws| * (|ws| - 1)
  {
    if ws == [] {
    } else {
      CountAll(ws[..|ws| - 1]);
      Gauss(|ws| - 1);
    }
  }

  lemma Gauss(n: nat)
    ensures n * (n - 1) + 2 * n == (n + 1) * n
  {
  }

  // ----- row count and checksum

  function One(k: int, v: int): int { 1 }
  function ValueOf(k: int, v: int): int { v }

  lemma {:induction false} RowsTotals(c: Config, w: nat, k: nat)
    ensures Total(Rows(c, w, k), One) == k && Total(Rows(c, w, k), ValueOf) == w * k
  {
    if k == 0 {
    } else {
      RowsTotals(c, w, k - 1);
      RowTotal(c, w, k - 1);
      TimesNext(w, k);
    }
  }

  lemma TimesNext(w: int, k: nat)
    requires k > 0
    ensures w * k == w * (k - 1) + w
  {
  }

  lemma RowTotal(c: Config, w: nat, k: nat)
    ensures Total(Rows(c, w, k + 1), One) == Total(Rows(c, w, k), One) + 1
    ensures Total(Rows(c, w, k + 1), ValueOf) == Total(Rows(c, w, k), ValueOf) + w
  {
    NextId(c, w, k);
    TotalWrite(Rows(c, w, k), One, RowId(c, w, k), w);
    TotalWrite(Rows(c, w, k), ValueOf, RowId(c, w, k), w);
  }

  /** A writer does not use an id twice. */
  lemma NextId(c: Config, w: nat, k: nat)
    ensures RowId(c, w, k) !in Rows(c, w, k)
  {
    RowsKeys(c, w, k);
  }

  /** The table holds what count and sum of the landed writers say. */
  ghost predicate Checks(c: Config, table: Table, count: nat, sum: nat) {
    Total(table, One) == c.perWriter * count && Total(table, ValueOf) == c.perWriter * sum
  }

  lemma ChecksOneMore(c: Config, table: Table, count: nat, sum: nat, w: nat)
    requires Checks(c, table, count, sum) && Rows(c, w, c.perWriter).Keys !! table.Keys
    ensures Checks(c, table + Rows(c, w, c.perWriter), count + 1, sum + w)
  {
    var mine := Rows(c, w, c.perWriter);
    RowsTotals(c, w, c.perWriter);
    TotalUnion(table, mine, One);
    TotalUnion(table, mine, ValueOf);
    Spread(c.perWriter, count, 1);
    Spread(c.perWriter, sum, w);
  }

  lemma Spread(p: nat, a: nat, b: nat)
    ensures p * (a + b) == p * a + b * p
  {
  }

  // ----- the invariant

  /** Some version served since the transaction began does not have row k. */
  ghost predicate WasFree(db: Db<int, int>, begin: nat, k: int) {
    exists e :: begin <= e < |db.versions| && k !in db.versions[e]
  }

  ghost predicate WriterOk(c: Config, db: Db<int, int>, w: nat, x: Writer) {
    x.phase.Open? ==>
      && x.next <= c.perWriter && x.txn.writes == Rows(c, w, x.next) && x.txn.begin < |db.versions|
      && forall k :: k in x.txn.writes ==> WasFree(db, x.txn.begin, k)
  }

  /** The committed versions hold nothing that the latest does not. */
  ghost predicate OnlyGrows(db: Db<int, int>) {
    && Valid(db)
    && (forall k :: k in db.stamps ==> k in Latest(db))
    && (forall e, k :: 0 <= e < |db.versions| && k in db.versions[e] ==> k in Latest(db))
  }

  /** No two landed writers have a row in common. */
  ghost predicate Apart(c: Config, ws: seq<Writer>) {
    forall v, w :: 0 <= v < w < |ws| && ws[v].phase.Landed? && ws[w].phase.Landed? ==>
                     Rows(c, v, c.perWriter).Keys !! Rows(c, w, c.perWriter).Keys
  }

  ghost predicate TableOk(c: Config, table: Table, ws: seq<Writer>) {
    && table == LandedRows(c, ws) && Apart(c, ws)
    && Checks(c, table, LandedCount(ws), LandedSum(ws))
  }

  ghost predicate Inv(c: Config, s: State) {
    && |s.writers| == c.writers && OnlyGrows(s.db)
    && TableOk(c, Latest(s.db), s.writers)
    && (forall w :: 0 <= w < |s.writers| ==> WriterOk(c, s.db, w, s.writers[w]))
  }

  lemma {:induction false} NoneLanded(c: Config, ws: seq<Writer>)
    requires forall x :: x in ws ==> !x.phase.Landed?
    ensures LandedRows(c, ws) == map[] && LandedCount(ws) == 0 && LandedSum(ws) == 0
  {
    if ws == [] {
    } else {
      NoneLanded(c, ws[..|ws| - 1]);
    }
  }

  lemma {:induction false} SameLanded(c: Config, ws: seq<Writer>, w: nat, x: Writer)
    requires w < |ws| && !ws[w].phase.Landed? && !x.phase.Landed?
    ensures LandedRows(c, ws[w := x]) == LandedRows(c, ws)
  {
    var n := |ws| - 1;
    if w == n {
      assert ws[w := x][..n] == ws[..n];
    } else {
      SameLanded(c, ws[..n], w, x);
      assert ws[w := x][..n] == ws[..n][w := x];
    }
  }

  /** One writer changes, and nothing lands. */
  lemma WriterMoves(c: Config, s: State, w: nat, x: Writer)
    requires Inv(c, s) && w < |s.writers| && !s.writers[w].phase.Landed? && !x.phase.Landed?
    requires WriterOk(c, s.db, w, x)
    ensures Inv(c, State(s.db, s.writers[w := x]))
  {
    SameLanded(c, s.writers, w, x);
    CountOne(s.writers, w, x);
  }

  lemma BeginStep(c: Config, s: State, w: nat)
    requires Inv(c, s) && Enabled(c, s, Begin(w))
    ensures Inv(c, Step(c, s, Begin(w)))
  {
    WriterMoves(c, s, w, Writer(Open, 0, Txn(|s.db.versions| - 1, map[])));
  }

  lemma InsertStep(c: Config, s: State, w: nat, e: nat)
    requires Inv(c, s) && Enabled(c, s, Insert(w, e))
    ensures Inv(c, Step(c, s, Insert(w, e)))
  {
    var x := s.writers[w];
    var x' := Step(c, s, Insert(w, e)).writers[w];
    InsertKeeps(c, s, w, e, x, x');
    WriterMoves(c, s, w, x');
  }

  lemma InsertKeeps(c: Config, s: State, w: nat, e: nat, x: Writer, x': Writer)
    requires Inv(c, s) && Enabled(c, s, Insert(w, e)) && x == s.writers[w]
    requires x' == Step(c, s, Insert(w, e)).writers[w]
    ensures WriterOk(c, s.db, w, x') && !x'.phase.Landed?
    ensures Step(c, s, Insert(w, e)) == State(s.db, s.writers[w := x'])
  {
    assert WriterOk(c, s.db, w, x);
    if x'.phase.Open? {
      assert RowId(c, w, x.next) !in s.db.versions[e];
    }
  }

  /** A validated writer's rows are not in the table: each was free at some moment since it began, and
      nobody has written it since. */
  lemma LandedApart(c: Config, s: State, w: nat)
    requires Inv(c, s) && Enabled(c, s, Land(w)) && Validates(s.db, s.writers[w].txn)
    ensures s.writers[w].txn.writes == Rows(c, w, c.perWriter)
    ensures Rows(c, w, c.perWriter).Keys !! Latest(s.db).Keys
  {
    var x := s.writers[w];
    assert WriterOk(c, s.db, w, x);
    forall k | k in x.txn.writes ensures k !in Latest(s.db) {
      assert WasFree(s.db, x.txn.begin, k);
      var e :| x.txn.begin <= e < |s.db.versions| && k !in s.db.versions[e];
      assert Same(s.db.versions[e], Latest(s.db), k);
    }
  }

  /** The table after a landing. */
  lemma TableGrows(c: Config, table: Table, ws: seq<Writer>, w: nat, x: Writer)
    requires TableOk(c, table, ws) && w < |ws| && !ws[w].phase.Landed? && x.phase.Landed?
    requires Rows(c, w, c.perWriter).Keys !! table.Keys
    ensures TableOk(c, table + Rows(c, w, c.perWriter), ws[w := x])
  {
    LandOne(c, ws, w, x);
    CountOne(ws, w, x);
    ChecksOneMore(c, table, LandedCount(ws), LandedSum(ws), w);
    StillApart(c, ws, w, x);
  }

  lemma StillApart(c: Config, ws: seq<Writer>, w: nat, x: Writer)
    requires Apart(c, ws) && w < |ws| && Rows(c, w, c.perWriter).Keys !! LandedRows(c, ws).Keys
    ensures Apart(c, ws[w := x])
  {
    forall v | 0 <= v < |ws| && ws[v].phase.Landed?
      ensures Rows(c, v, c.perWriter).Keys !! Rows(c, w, c.perWriter).Keys
    {
      LandedKeys(c, ws, v);
    }
  }

  /** A commit leaves the old versions in place. */
  lemma WriterStays(c: Config, db: Db<int, int>, t: Txn<int, int>, w: nat, x: Writer)
    requires |db.versions| > 0 && WriterOk(c, db, w, x)
    ensures WriterOk(c, Commit(db, t), w, x)
  {
    var d := Commit(db, t);
    CommitKeepsVersions(db, t);
    forall k | x.phase.Open? && k in x.txn.writes ensures WasFree(d, x.txn.begin, k) {
      assert WasFree(db, x.txn.begin, k);
      var e :| x.txn.begin <= e < |db.versions| && k !in db.versions[e];
      assert d.versions[e] == db.versions[e];
    }
  }

  lemma GrowsOn(db: Db<int, int>, t: Txn<int, int>)
    requires OnlyGrows(db)
    ensures OnlyGrows(Commit(db, t))
  {
    CommitKeepsValid(db, t);
    CommitKeepsVersions(db, t);
  }

  lemma LandStep(c: Config, s: State, w: nat)
    requires Inv(c, s) && Enabled(c, s, Land(w)) && Validates(s.db, s.writers[w].txn)
    ensures Inv(c, Step(c, s, Land(w)))
  {
    var x := s.writers[w];
    var s' := Step(c, s, Land(w));
    LandedApart(c, s, w);
    TableGrows(c, Latest(s.db), s.writers, w, s'.writers[w]);
    GrowsOn(s.db, x.txn);
    forall v | 0 <= v < |s'.writers| ensures WriterOk(c, s'.db, v, s'.writers[v]) {
      if v != w { WriterStays(c, s.db, x.txn, v, s.writers[v]); }
    }
  }

  /** A writer that panics leaves nothing behind. */
  lemma PanicStep(c: Config, s: State, w: nat, x: Writer)
    requires Inv(c, s) && w < |s.writers| && !Ended(s.writers[w]) && x.phase.Panicked?
    ensures Inv(c, State(s.db, s.writers[w := x]))
  {
    WriterMoves(c, s, w, x);
  }

  lemma StepInv(c: Config, s: State, a: Action)
    requires Inv(c, s) && Enabled(c, s, a)
    ensures Inv(c, Step(c, s, a))
  {
    match a
    case Begin(w) => BeginStep(c, s, w);
    case Insert(w, e) => InsertStep(c, s, w, e);
    case Land(w) =>
      if Validates(s.db, s.writers[w].txn) {
        LandStep(c, s, w);
      } else {
        PanicStep(c, s, w, s.writers[w].(phase := Panicked));
      }
    case Fail(w) => PanicStep(c, s, w, s.writers[w].(phase := Panicked));
  }

  lemma StartInv(c: Config)
    ensures Inv(c, Init(c))
  {
    NoneLanded(c, Init(c).writers);
    StartValid<int, int>(map[]);
  }

  lemma {:induction false} RunInv(c: Config, ss: seq<State>, acts: seq<Action>, i: nat)
    requires IsRun(c, ss, acts) && i < |ss|
    ensures Inv(c, ss[i])
  {
    if i == 0 {
      StartInv(c);
    } else {
      RunInv(c, ss, acts, i - 1);
      StepInv(c, ss[i - 1], acts[i - 1]);
    }
  }

  // ----- the final check

  ghost predicate AllLanded(s: State) {
    forall w :: 0 <= w < |s.writers| ==> s.writers[w].phase.Landed?
  }

  /** Whatever the ids and whatever failed: in every state of every run the table is what the landed
      writers inserted, every row of each of them and no row of two, and nothing of the others. Once all
      have landed - in any order - the count is P * W and the checksum P * W * (W - 1) / 2. */
  lemma AllRowsLand(c: Config, ss: seq<State>, acts: seq<Action>, i: nat)
    requires IsRun(c, ss, acts) && i < |ss|
    ensures var s := ss[i];
            && |s.writers| == c.writers && |s.db.versions| > 0
            && Latest(s.db) == LandedRows(c, s.writers) && Apart(c, s.writers)
            && Total(Latest(s.db), One) == c.perWriter * LandedCount(s.writers)
            && Total(Latest(s.db), ValueOf) == c.perWriter * LandedSum(s.writers)
            && (AllLanded(s) ==>
                  && Total(Latest(s.db), One) == c.perWriter * c.writers
                  && 2 * Total(Latest(s.db), ValueOf) == c.perWriter * (c.writers * (c.writers - 1)))
  {
    RunInv(c, ss, acts, i);
    if AllLanded(ss[i]) {
      CountAll(ss[i].writers);
      Twice(c.perWriter, LandedSum(ss[i].writers), c.writers * (c.writers - 1));
    }
  }

  lemma Twice(p: nat, a: nat, b: int)
    requires 2 * a == b
    ensures 2 * (p * a) == p * b
  {
  }

  lemma {:induction false} RowsAre(c: Config, w: nat, n: nat, k: int)
    ensures k in Rows(c, w, n) <==> 0 <= k - w * c.stride < n
    ensures k in Rows(c, w, n) ==> Rows(c, w, n)[k] == w
  {
    if n > 0 {
      RowsAre(c, w, n - 1, k);
    }
  }

  /** Writer w has landed, and k is one of its ids. */
  ghost predicate LandedBy(c: Config, ws: seq<Writer>, w: nat, k: int) {
    w < |ws| && ws[w].phase.Landed? && 0 <= k - w * c.stride < c.perWriter
  }

  lemma OnlyOneLands(c: Config, ws: seq<Writer>, v: nat, w: nat, k: int)
    requires Apart(c, ws) && LandedBy(c, ws, v, k) && LandedBy(c, ws, w, k)
    ensures v == w
  {
    RowsAre(c, v, c.perWriter, k);
    RowsAre(c, w, c.perWriter, k);
  }

  lemma {:induction false} LandedRowIs(c: Config, ws: seq<Writer>, w: nat, k: int)
    requires Apart(c, ws) && LandedBy(c, ws, w, k)
    ensures k in LandedRows(c, ws) && LandedRows(c, ws)[k] == w
  {
    var n := |ws| - 1;
    RowsAre(c, n, c.perWriter, k);
    if w < n {
      LandedRowIs(c, ws[..n], w, k);
      if LandedBy(c, ws, n, k) { OnlyOneLands(c, ws, w, n, k); }
    }
  }

  lemma {:induction false} LandedOwner(c: Config, ws: seq<Writer>, k: int) returns (w: nat)
    requires k in LandedRows(c, ws)
    ensures LandedBy(c, ws, w, k)
  {
    var n := |ws| - 1;
    RowsAre(c, n, c.perWriter, k);
    if ws[n].phase.Landed? && k in Rows(c, n, c.perWriter) {
      w := n;
    } else {
      w := LandedOwner(c, ws[..n], k);
    }
  }

  /** The table row by row: k is there exactly when the writer w whose ids w * stride .. hold it has landed,
      and w is its value. */
  lemma LandedRowsAre(c: Config, ws: seq<Writer>, k: int)
    requires Apart(c, ws)
    ensures k in LandedRows(c, ws) <==> exists w :: LandedBy(c, ws, w, k)
    ensures forall w :: LandedBy(c, ws, w, k) ==> k in LandedRows(c, ws) && LandedRows(c, ws)[k] == w
  {
    if k in LandedRows(c, ws) {
      var w := LandedOwner(c, ws, k);
    }
    forall w | LandedBy(c, ws, w, k) ensures k in LandedRows(c, ws) && LandedRows(c, ws)[k] == w {
      LandedRowIs(c, ws, w, k);
    }
  }

  /** Writers whose runs of ids overlap do not both land. */
  lemma NeighboursClash(c: Config, ss: seq<State>, acts: seq<Action>, i: nat, w: nat)
    requires IsRun(c, ss, acts) && i < |ss| && w + 1 < c.writers && c.stride < c.perWriter
    ensures |ss[i].writers| == c.writers
    ensures !(ss[i].writers[w].phase.Landed? && ss[i].writers[w + 1].phase.Landed?)
  {
    RunInv(c, ss, acts, i);
    RowsKeys(c, w, c.perWriter);
    RowsKeys(c, w + 1, c.perWriter);
    assert RowId(c, w, c.stride) == RowId(c, w + 1, 0);
    assert RowId(c, w + 1, 0) in Rows(c, w, c.perWriter) && RowId(c, w + 1, 0) in Rows(c, w + 1, c.perWriter);
  }

  // ----- disjoint ids

  /** The next id of an open writer is free in every version. */
  lemma InsertIsFresh(c: Config, s: State, w: nat, e: nat)
    requires Disjoint(c) && Inv(c, s) && Enabled(c, s, Insert(w, e))
    ensures RowId(c, w, s.writers[w].next) !in View(s.db, s.writers[w].txn, e)
  {
    var x := s.writers[w];
    assert WriterOk(c, s.db, w, x);
    NotLanded(c, s.writers, w, x.next);
    NextId(c, w, x.next);
  }

  /** Validation never fails: no one else has written any of these rows. */
  lemma LandValidates(c: Config, s: State, w: nat)
    requires Disjoint(c) && Inv(c, s) && Enabled(c, s, Land(w))
    ensures Validates(s.db, s.writers[w].txn)
  {
    var x := s.writers[w];
    assert WriterOk(c, s.db, w, x);
    RowsKeys(c, w, c.perWriter);
    forall k | k in x.txn.writes ensures k !in s.db.stamps {
      var i: nat :| i < c.perWriter && k == RowId(c, w, i);
      NotLanded(c, s.writers, w, i);
    }
  }

  /** Only the engine can then make a writer panic. */
  lemma OnlyFailPanics(c: Config, s: State, a: Action, w: nat)
    requires Disjoint(c) && Inv(c, s) && Enabled(c, s, a) && !a.Fail? && w < |s.writers|
    ensures Step(c, s, a).writers[w].phase.Panicked? <==> s.writers[w].phase.Panicked?
  {
    if a.Insert? { InsertIsFresh(c, s, a.w, a.e); }
    if a.Land? { LandValidates(c, s, a.w); }
  }

  ghost predicate NoFailure(acts: seq<Action>, from: nat) {
    forall i :: from <= i < |acts| ==> !acts[i].Fail?
  }

  lemma {:induction false} RunNoPanic(c: Config, ss: seq<State>, acts: seq<Action>, i: nat)
    requires IsRun(c, ss, acts) && NoFailure(acts, 0) && i < |ss| && (c.writers <= 1 || c.stride >= c.perWriter)
    ensures NoPanic(ss[i])
  {
    if i > 0 {
      RunNoPanic(c, ss, acts, i - 1);
      DisjointIff(c);
      RunInv(c, ss, acts, i - 1);
      forall w | 0 <= w < |ss[i].writers| ensures !ss[i].writers[w].phase.Panicked? {
        OnlyFailPanics(c, ss[i - 1], acts[i - 1], w);
      }
    }
  }

  // ----- how runs end

  /** The steps a writer has before it. */
  function Work(c: Config, x: Writer): nat {
    match x.phase
    case Ready => c.perWriter + 2
    case Open => if x.next < c.perWriter then c.perWriter - x.next + 1 else 1
    case Landed | Panicked => 0
  }

  function TotalWork(c: Config, ws: seq<Writer>): nat {
    if ws == [] then 0 else TotalWork(c, ws[..|ws| - 1]) + Work(c, ws[|ws| - 1])
  }

  lemma {:induction false} WorkMoves(c: Config, ws: seq<Writer>, w: nat, x: Writer)
    requires w < |ws|
    ensures TotalWork(c, ws[w := x]) == TotalWork(c, ws) - Work(c, ws[w]) + Work(c, x)
  {
    var n := |ws| - 1;
    if w == n {
      assert ws[w := x][..n] == ws[..n];
    } else {
      WorkMoves(c, ws[..n], w, x);
      assert ws[w := x][..n] == ws[..n][w := x];
    }
  }

  lemma WorkFalls(c: Config, s: State, a: Action)
    requires Enabled(c, s, a)
    ensures TotalWork(c, Step(c, s, a).writers) < TotalWork(c, s.writers)
  {
    WorkMoves(c, s.writers, a.w, Step(c, s, a).writers[a.w]);
  }

  lemma {:induction false} WorkAtStart(c: Config, ws: seq<Writer>)
    requires forall x :: x in ws ==> x.phase.Ready?
    ensures TotalWork(c, ws) == |ws| * (c.perWriter + 2)
  {
    if ws == [] {
    } else {
      WorkAtStart(c, ws[..|ws| - 1]);
    }
  }

  /** No run is longer than one begin, one landing and the inserts of every writer, whatever the ids. */
  lemma {:induction false} RunsAreBounded(c: Config, ss: seq<State>, acts: seq<Action>, i: nat)
    requires IsRun(c, ss, acts) && i < |ss|
    ensures i + TotalWork(c, ss[i].writers) <= c.writers * (c.perWriter + 2)
  {
    if i == 0 {
      WorkAtStart(c, Init(c).writers);
    } else {
      RunsAreBounded(c, ss, acts, i - 1);
      WorkFalls(c, ss[i - 1], acts[i - 1]);
    }
  }

  /** The run cannot go on unless the engine fails something. */
  ghost predicate Stuck(c: Config, s: State) {
    forall a :: Enabled(c, s, a) ==> a.Fail?
  }

  ghost predicate AllEnded(s: State) {
    forall w :: 0 <= w < |s.writers| ==> Ended(s.writers[w])
  }

  /** A writer that has not ended can go on. */
  lemma NextStep(c: Config, s: State, w: nat) returns (a: Action)
    requires Inv(c, s) && Alive(c, s) && w < |s.writers| && !Ended(s.writers[w])
    ensures Enabled(c, s, a) && !a.Fail?
  {
    var x := s.writers[w];
    assert WriterOk(c, s.db, w, x);
    a := if x.phase.Ready? then Begin(w) else if x.next < c.perWriter then Insert(w, |s.db.versions| - 1) else Land(w);
  }

  /** No writer ever waits for another: whatever the others have done, one that has not ended can take its
      next step, and any version since it began may serve its insert. */
  lemma NobodyWaits(c: Config, ss: seq<State>, acts: seq<Action>, w: nat, e: nat)
    requires IsRun(c, ss, acts) && w < c.writers && Alive(c, ss[|acts|])
    ensures var s := ss[|acts|];
            && |s.writers| == c.writers && |s.db.versions| > 0
            && var x := s.writers[w];
            && (x.phase.Ready? ==> Enabled(c, s, Begin(w)))
            && (x.phase.Open? && x.next < c.perWriter && x.txn.begin <= e < |s.db.versions| ==>
                  Enabled(c, s, Insert(w, e)))
            && (x.phase.Open? && x.next >= c.perWriter ==> Enabled(c, s, Land(w)))
            && (x.phase.Ready? || x.phase.Open? ==> Enabled(c, s, Fail(w)))
  {
    RunInv(c, ss, acts, |acts|);
    assert WriterOk(c, ss[|acts|].db, w, ss[|acts|].writers[w]);
  }

  /** A run stops nowhere but where a panic has aborted the process or every writer has ended, and there
      no step of any kind is left. */
  lemma StuckIff(c: Config, ss: seq<State>, acts: seq<Action>)
    requires IsRun(c, ss, acts)
    ensures var s := ss[|acts|];
            && (Stuck(c, s) <==> !Alive(c, s) || AllEnded(s))
            && (Stuck(c, s) ==> forall a :: !Enabled(c, s, a))
  {
    var s := ss[|acts|];
    RunInv(c, ss, acts, |acts|);
    if Alive(c, s) && !AllEnded(s) {
      var w :| 0 <= w < |s.writers| && !Ended(s.writers[w]);
      var a := NextStep(c, s, w);
    }
  }

  lemma RunOn(c: Config, ss: seq<State>, acts: seq<Action>, a: Action)
    requires IsRun(c, ss, acts) && Enabled(c, ss[|acts|], a)
    ensures IsRun(c, ss + [Step(c, ss[|acts|], a)], acts + [a])
  {
    var ss', acts' := ss + [Step(c, ss[|acts|], a)], acts + [a];
    forall i | 0 <= i < |acts'| ensures Enabled(c, ss'[i], acts'[i]) && ss'[i + 1] == Step(c, ss'[i], acts'[i]) {
      assert ss'[i] == ss[i];
      if i < |acts| {
        assert ss'[i + 1] == ss[i + 1] && acts'[i] == acts[i];
      }
    }
  }

  /** All writers have landed, but for those that had panicked in s already. */
  ghost predicate OthersLanded(s: State, s': State) {
    && |s'.writers| == |s.writers|
    && forall w :: 0 <= w < |s.writers| ==>
                     if s.writers[w].phase.Panicked? then s'.writers[w].phase.Panicked? else s'.writers[w].phase.Landed?
  }

  lemma CanGoOn(c: Config, ss: seq<State>, acts: seq<Action>) returns (a: Action)
    requires IsRun(c, ss, acts) && Disjoint(c) && Alive(c, ss[|acts|]) && !AllEnded(ss[|acts|])
    ensures Enabled(c, ss[|acts|], a) && !a.Fail?
    ensures var s, s' := ss[|acts|], Step(c, ss[|acts|], a);
            && Alive(c, s') && |s'.writers| == |s.writers|
            && forall w :: 0 <= w < |s.writers| ==> (s'.writers[w].phase.Panicked? <==> s.writers[w].phase.Panicked?)
  {
    var s := ss[|acts|];
    StuckIff(c, ss, acts);
    RunInv(c, ss, acts, |acts|);
    a :| Enabled(c, s, a) && !a.Fail?;
    forall w | 0 <= w < |s.writers|
      ensures Step(c, s, a).writers[w].phase.Panicked? <==> s.writers[w].phase.Panicked?
    {
      OnlyFailPanics(c, s, a, w);
    }
  }

  /** With disjoint ids every run that has not been aborted can be led on, without a failure, until all
      writers have landed that had not panicked before. */
  lemma {:induction false} EveryRunCanLand(c: Config, ss: seq<State>, acts: seq<Action>)
    returns (ss': seq<State>, acts': seq<Action>)
    requires IsRun(c, ss, acts) && Alive(c, ss[|acts|]) && (c.writers <= 1 || c.stride >= c.perWriter)
    ensures IsRun(c, ss', acts') && ss <= ss' && acts <= acts' && NoFailure(acts', |acts|)
    ensures OthersLanded(ss[|acts|], ss'[|acts'|])
    decreases TotalWork(c, ss[|acts|].writers)
  {
    var s := ss[|acts|];
    DisjointIff(c);
    if AllEnded(s) {
      ss', acts' := ss, acts;
    } else {
      var a := CanGoOn(c, ss, acts);
      RunOn(c, ss, acts, a);
      WorkFalls(c, s, a);
      ss', acts' := EveryRunCanLand(c, ss + [Step(c, s, a)], acts + [a]);
      assert acts'[|acts|] == (acts + [a])[|acts|];
    }
  }

  // ----- overlapping ids

  /** A run to s in which the engine never fails. */
  ghost predicate RunTo(c: Config, ss: seq<State>, acts: seq<Action>, s: State) {
    IsRun(c, ss, acts) && NoFailure(acts, 0) && ss[|acts|] == s
  }

  ghost predicate Reaches(c: Config, s: State) { exists ss, acts :: RunTo(c, ss, acts, s) }

  ghost predicate CanPanic(c: Config) { exists s :: Reaches(c, s) && !NoPanic(s) }

  ghost predicate CanLandAll(c: Config) { exists s :: Reaches(c, s) && AllLanded(s) }

  lemma ReachStep(c: Config, s: State, a: Action)
    requires Reaches(c, s) && Enabled(c, s, a) && !a.Fail?
    ensures Reaches(c, Step(c, s, a))
  {
    var ss, acts :| RunTo(c, ss, acts, s);
    RunOn(c, ss, acts, a);
    assert RunTo(c, ss + [Step(c, s, a)], acts + [a], Step(c, s, a));
  }

  /** Writer 0 alone has begun, and inserted k rows. */
  function Alone(c: Config, k: nat): State
    requires c.writers > 0
  {
    Init(c).(writers := Init(c).writers[0 := Writer(Open, k, Txn(0, Rows(c, 0, k)))])
  }

  lemma AloneGoesOn(c: Config, k: nat)
    requires c.writers > 0 && k < c.perWriter
    ensures Enabled(c, Alone(c, k), Insert(0, 0)) && Step(c, Alone(c, k), Insert(0, 0)) == Alone(c, k + 1)
  {
    NextId(c, 0, k);
    var t := Step(c, Alone(c, k), Insert(0, 0));
    assert t.writers == Alone(c, k + 1).writers;
  }

  lemma {:induction false} ReachAlone(c: Config, k: nat)
    requires c.writers > 0 && k <= c.perWriter
    ensures Reaches(c, Alone(c, k))
  {
    if k == 0 {
      assert RunTo(c, [Init(c)], [], Init(c));
      ReachStep(c, Init(c), Begin(0));
    } else {
      ReachAlone(c, k - 1);
      AloneGoesOn(c, k - 1);
      ReachStep(c, Alone(c, k - 1), Insert(0, 0));
    }
  }

  /** Writer 0 has landed, and writer 1 has begun after it. */
  lemma ReachSecond(c: Config) returns (s: State)
    requires c.writers > 1
    ensures Reaches(c, s) && |s.writers| == c.writers && s.db.versions == [map[], Rows(c, 0, c.perWriter)]
    ensures s.writers[1] == Writer(Open, 0, Txn(1, map[])) && NoPanic(s)
  {
    var t := Alone(c, c.perWriter);
    ReachAlone(c, c.perWriter);
    ReachStep(c, t, Land(0));
    assert map[] + Rows(c, 0, c.perWriter) == Rows(c, 0, c.perWriter);
    ReachStep(c, Step(c, t, Land(0)), Begin(1));
    s := Step(c, Step(c, t, Land(0)), Begin(1));
  }

  /** The first id of writer 1 is one that writer 0 has inserted. */
  lemma OverlapPanics(c: Config)
    requires c.writers > 1 && c.stride < c.perWriter
    ensures CanPanic(c)
  {
    var s := ReachSecond(c);
    RowsKeys(c, 0, c.perWriter);
    assert RowId(c, 1, 0) == RowId(c, 0, c.stride);
    ReachStep(c, s, Insert(1, 1));
    assert Step(c, s, Insert(1, 1)).writers[1].phase.Panicked?;
  }

  /** An engine that never fails can make a writer panic exactly when there are several and their ids
      overlap. */
  lemma PanicIff(c: Config)
    ensures CanPanic(c) <==> c.writers > 1 && c.stride < c.perWriter
  {
    if c.writers > 1 && c.stride < c.perWriter {
      OverlapPanics(c);
    } else if CanPanic(c) {
      var s :| Reaches(c, s) && !NoPanic(s);
      var ss, acts :| RunTo(c, ss, acts, s);
      RunNoPanic(c, ss, acts, |acts|);
    }
  }

  /** All writers can land exactly when there is one or their ids do not overlap. */
  lemma LandAllIff(c: Config)
    ensures CanLandAll(c) <==> c.writers <= 1 || c.stride >= c.perWriter
  {
    if c.writers <= 1 || c.stride >= c.perWriter {
      var ss, acts := EveryRunCanLand(c, [Init(c)], []);
      assert RunTo(c, ss, acts, ss[|acts|]) && AllLanded(ss[|acts|]);
    } else if CanLandAll(c) {
      var s :| Reaches(c, s) && AllLanded(s);
      var ss, acts :| RunTo(c, ss, acts, s);
      NeighboursClash(c, ss, acts, |acts|, 0);
    }
  }
}
