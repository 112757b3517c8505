/** The N-connection payment burst: every connection runs debit + audit append + read transactions
    with up to eight attempts per round, over the row-level commit contract. The state machine
    interleaves the statements of all connections in any order, and the engine may serve, refuse,
    conflict or fail each of them. */
module OltpBurst {
  import opened Finite
  import opened RowStore

  // ----- the tables

  datatype Row = Account(id: int) | History(id: int)
  datatype Cell = Balance(amount: int) | Audit(account: int, delta: int)
  type Store = map<Row, Cell>

  const START_BALANCE := 10_000
  const ATTEMPTS: nat := 8

  function InitStore(scale: nat): Store {
    if scale == 0 then map[] else InitStore(scale - 1)[Account(scale - 1) := Balance(START_BALANCE)]
  }

  /** What the state reset between two modes leaves. */
  function Reset(m: Store): Store {
    map k | k in m && k.Account? :: Balance(START_BALANCE)
  }

  // ----- the connections

  /** unwinds says how the program is built: a panic unwinds its own thread only, or it aborts the whole
      process, as in the release profile. */
  datatype Config = Config(conns: nat, rounds: nat, scale: nat, concurrent: bool, unwinds: bool)

  /** Which statement a connection runs next. */
  datatype Pc =
    | AtTop | AtBegin | AtUpdate | AtAppend | AtRead | AtCommit
    | AtBarrier | Waiting(generation: nat) | Finished | Panicked

  datatype Worker = Worker(
    pc: Pc,
    round: nat,
    attempt: nat,                  // attempts begun in this round
    account: int, delta: int,      // drawn once per round
    txn: Txn<Row, Cell>,
    updateAt: nat, appendAt: nat,  // the versions that served the two writes
    commits: nat, conflicts: nat,
    begun: nat)                    // attempts begun in all rounds

  datatype Gate = Free | HeldBy(worker: nat)

  datatype Payment = Payment(account: int, delta: int, id: int)

  /** log lists the committed payments in commit order; the program keeps no such list. */
  datatype State = State(
    db: Db<Row, Cell>,
    workers: seq<Worker>,
    gate: Gate,
    arrived: nat, generation: nat,
    log: seq<Payment>)

  /** Worker w has seed w + 1. */
  function HistoryId(w: nat, round: nat): int { (w + 1) * 1_000_000 + round }

  function Idle(): Worker { Worker(AtTop, 0, 0, 0, 0, Txn(0, map[]), 0, 0, 0, 0, 0) }

  function Init(c: Config): State {
    State(Start(InitStore(c.scale)), seq(c.conns, _ => Idle()), Free, 0, 0, [])
  }

  // ----- steps

  datatype Action =
    | Draw(w: nat, account: int, delta: int)
    | BeginTxn(w: nat)
    | Update(w: nat, e: nat)
    | Append(w: nat, e: nat)
    | Read(w: nat, e: nat)
    | Refuse(w: nat)               // a statement refused with BUSY; the client rolls back
    | CommitOk(w: nat)
    | Conflict(w: nat)             // COMMIT failed with BUSY_SNAPSHOT; the engine rolled back
    | GiveUp(w: nat)
    | Arrive(w: nat)
    | Wake(w: nat)
    | Finish(w: nat)
    | Fail(w: nat)                 // any other error: the worker panics

  predicate InBody(pc: Pc) { pc.AtUpdate? || pc.AtAppend? || pc.AtRead? }
  predicate HasWritten(pc: Pc) { pc.AtAppend? || pc.AtRead? || pc.AtCommit? }

  /** The version that serves a statement: in concurrent mode any one since the transaction began
      (the begin-time snapshot or newer bytes touched late), in plain mode the current one. */
  predicate Serves(c: Config, s: State, t: Txn<Row, Cell>, e: nat) {
    e < |s.db.versions| && (if c.concurrent then t.begin <= e else e == |s.db.versions| - 1)
  }

  predicate NoPanic(s: State) {
    forall w :: 0 <= w < |s.workers| ==> !s.workers[w].pc.Panicked?
  }

  /** Whether the process is still there. */
  predicate Alive(c: Config, s: State) { c.unwinds || NoPanic(s) }

  predicate Enabled(c: Config, s: State, a: Action) {
    && Alive(c, s)
    && a.w < |s.workers|
    && |s.db.versions| > 0
    && var x := s.workers[a.w];
    match a
    case Draw(_, account, delta) =>
      x.pc.AtTop? && x.round < c.rounds && -100 <= delta < 100 && (c.scale > 0 ==> 0 <= account < c.scale)
    case BeginTxn(_) => x.pc.AtBegin? && x.attempt < ATTEMPTS
    case Update(_, e) => x.pc.AtUpdate? && Serves(c, s, x.txn, e) && (c.concurrent || s.gate.Free?)
    case Append(_, e) => x.pc.AtAppend? && Serves(c, s, x.txn, e)
    case Read(_, e) => x.pc.AtRead? && Serves(c, s, x.txn, e)
    case Refuse(_) => InBody(x.pc)
    case CommitOk(_) => x.pc.AtCommit? && (c.concurrent ==> Validates(s.db, x.txn))
    case Conflict(_) => x.pc.AtCommit?
    case GiveUp(_) => x.pc.AtBegin? && x.attempt == ATTEMPTS
    case Arrive(_) => x.pc.AtBarrier?
    case Wake(_) => x.pc.Waiting? && x.pc.generation < s.generation
    case Finish(_) => x.pc.AtTop? && x.round == c.rounds
    case Fail(_) => (x.pc.AtBegin? && x.attempt < ATTEMPTS) || InBody(x.pc) || x.pc.AtCommit?
  }

  /** UPDATE accounts SET balance = balance - delta: no row, no write, no error. */
  function Debit(x: Worker, view: Store, e: nat): Worker {
    var k := Account(x.account);
    if k in view && view[k].Balance?
    then x.(pc := AtAppend, updateAt := e,
         txn := x.txn.(writes := x.txn.writes[k := Balance(view[k].amount - x.delta)]))
    else x.(pc := AtAppend, updateAt := e)
  }

  /** INSERT INTO history: an id already there is a constraint error, which the worker panics on. */
  function Record(x: Worker, id: int, view: Store, e: nat): Worker {
    if History(id) in view then x.(pc := Panicked)
    else x.(pc := AtRead, appendAt := e,
         txn := x.txn.(writes := x.txn.writes[History(id) := Audit(x.account, x.delta)]))
  }

  /** SELECT balance ... fetch_one: no row is an error, which the worker panics on. */
  function Check(x: Worker, view: Store): Worker {
    x.(pc := if Account(x.account) in view then AtCommit else Panicked)
  }

  function Release(s: State, w: nat): Gate { if s.gate == HeldBy(w) then Free else s.gate }

  /** The barrier opens for the last arrival. */
  predicate Opens(c: Config, s: State, a: Action) { a.Arrive? && s.arrived + 1 == c.conns }

  /** The worker that steps, after its step. Drawing an account from none panics. */
  function NextWorker(c: Config, s: State, a: Action): Worker
    requires Enabled(c, s, a)
  {
    var x := s.workers[a.w];
    match a
    case Draw(_, account, delta) =>
      if c.scale == 0 then x.(pc := Panicked)
      else x.(pc := AtBegin, attempt := 0, account := account, delta := delta)
    case BeginTxn(_) =>
      x.(pc := AtUpdate, attempt := x.attempt + 1, begun := x.begun + 1, txn := Txn(|s.db.versions| - 1, map[]))
    case Update(_, e) =>
      var y := if c.concurrent then x else x.(txn := Txn(e, x.txn.writes));
      Debit(y, View(s.db, y.txn, e), e)
    case Append(w, e) => Record(x, HistoryId(w, x.round), View(s.db, x.txn, e), e)
    case Read(_, e) => Check(x, View(s.db, x.txn, e))
    case Refuse(_) => x.(pc := AtBegin)
    case CommitOk(_) => x.(pc := AtBarrier, commits := x.commits + 1)
    case Conflict(_) => x.(pc := AtBegin, conflicts := x.conflicts + 1)
    case GiveUp(_) => x.(pc := AtBarrier)
    case Arrive(_) =>
      if Opens(c, s, a) then x.(pc := AtTop, round := x.round + 1) else x.(pc := Waiting(s.generation))
    case Wake(_) => x.(pc := AtTop, round := x.round + 1)
    case Finish(_) => x.(pc := Finished)
    case Fail(_) => x.(pc := Panicked)
  }

  /** The first write of a plain transaction takes the gate; a transaction that ends gives it back. */
  function NextGate(c: Config, s: State, a: Action, y: Worker): Gate {
    if !HasWritten(y.pc) then Release(s, a.w) else if a.Update? && !c.concurrent then HeldBy(a.w) else s.gate
  }

  function PaymentOf(s: State, w: nat): Payment
    requires w < |s.workers|
  {
    Payment(s.workers[w].account, s.workers[w].delta, HistoryId(w, s.workers[w].round))
  }

  function Step(c: Config, s: State, a: Action): State
    requires Enabled(c, s, a)
  {
    var y := NextWorker(c, s, a);
    State(if a.CommitOk? then Commit(s.db, s.workers[a.w].txn) else s.db,
          s.workers[a.w := y],
          NextGate(c, s, a, y),
          if Opens(c, s, a) then 0 else if a.Arrive? then s.arrived + 1 else s.arrived,
          if Opens(c, s, a) then s.generation + 1 else s.generation,
          if a.CommitOk? then s.log + [PaymentOf(s, a.w)] else s.log)
  }

  // ----- runs

  ghost predicate IsRun(c: Config, ss: seq<State>, acts: seq<Action>) {
    && |ss| == |acts| + 1
    && ss[0] == Init(c)
    && forall i :: 0 <= i < |acts| ==> Enabled(c, ss[i], acts[i]) && ss[i + 1] == Step(c, ss[i], acts[i])
  }

  // ----- serial execution: the reference

  /** The payment can run on its own in m. */
  ghost predicate Legal(m: Store, p: Payment) {
    Account(p.account) in m && m[Account(p.account)].Balance? && History(p.id) !in m
  }

  /** One whole payment on its own. */
  function Pay(m: Store, p: Payment): Store {
    var k := Account(p.account);
    (if k in m && m[k].Balance? then m[k := Balance(m[k].amount - p.delta)] else m)
    [History(p.id) := Audit(p.account, p.delta)]
  }

  function Serial(m: Store, log: seq<Payment>): Store {
    if log == [] then m else Pay(Serial(m, log[..|log| - 1]), log[|log| - 1])
  }

  ghost predicate SerialLegal(m: Store, log: seq<Payment>) {
    log == [] || (SerialLegal(m, log[..|log| - 1]) && Legal(Serial(m, log[..|log| - 1]), log[|log| - 1]))
  }

  // ----- the invariant of the store

  /** Rows 0 .. scale of accounts and nothing else there; history holds audit rows only. */
  ghost predicate Typed(scale: nat, m: Store) {
    && (forall i :: 0 <= i < scale ==> Account(i) in m)
    && (forall k :: k in m ==> if k.Account? then 0 <= k.id < scale && m[k].Balance? else m[k].Audit?)
  }

  function Debited(m: Store, x: Worker): map<Row, Cell>
    requires Account(x.account) in m && m[Account(x.account)].Balance?
  {
    map[Account(x.account) := Balance(m[Account(x.account)].amount - x.delta)]
  }

  /** What an open transaction holds: the writes it derived from the versions that served it. */
  ghost predicate TxnOk(c: Config, db: Db<Row, Cell>, w: nat, x: Worker) {
    && (InBody(x.pc) || x.pc.AtCommit? ==> x.txn.begin < |db.versions| && 0 <= x.account < c.scale)
    && (x.pc.AtBegin? ==> 0 <= x.account < c.scale)
    && (x.pc.AtUpdate? ==> x.txn.writes == map[])
    && (HasWritten(x.pc) ==>
          && x.txn.begin <= x.updateAt < |db.versions|
          && Typed(c.scale, db.versions[x.updateAt]))
    && (x.pc.AtAppend? ==> x.txn.writes == Debited(db.versions[x.updateAt], x))
    && (x.pc.AtRead? || x.pc.AtCommit? ==>
          && x.txn.begin <= x.appendAt < |db.versions|
          && History(HistoryId(w, x.round)) !in db.versions[x.appendAt]
          && x.txn.writes
             == Debited(db.versions[x.updateAt], x)[History(HistoryId(w, x.round)) := Audit(x.account, x.delta)])
  }

  /** In plain mode only the holder of the write gate has written, on top of the current version. */
  ghost predicate GateOk(c: Config, s: State) {
    !c.concurrent ==>
      forall w :: 0 <= w < |s.workers| && HasWritten(s.workers[w].pc) ==>
                    s.gate == HeldBy(w) && s.workers[w].txn.begin == |s.db.versions| - 1
  }

  ghost predicate StoreOk(c: Config, s: State) {
    && Valid(s.db)
    && (forall e :: 0 <= e < |s.db.versions| ==> Typed(c.scale, s.db.versions[e]))
    && SerialLegal(InitStore(c.scale), s.log)
    && Latest(s.db) == Serial(InitStore(c.scale), s.log)
  }

  function Commits(ws: seq<Worker>): nat {
    if ws == [] then 0 else Commits(ws[..|ws| - 1]) + ws[|ws| - 1].commits
  }

  ghost predicate Inv(c: Config, s: State) {
    && |s.workers| == c.conns
    && StoreOk(c, s)
    && (forall w :: 0 <= w < |s.workers| ==> TxnOk(c, s.db, w, s.workers[w]))
    && GateOk(c, s)
    && Commits(s.workers) == |s.log|
  }

  // ----- the invariant holds

  lemma {:induction false} InitTyped(scale: nat)
    ensures Typed(scale, InitStore(scale))
  {
    if scale == 0 {
    } else {
      InitTyped(scale - 1);
    }
  }

  lemma {:induction false} NoCommits(ws: seq<Worker>)
    requires forall x :: x in ws ==> x.commits == 0
    ensures Commits(ws) == 0
  {
    if ws == [] {
    } else {
      NoCommits(ws[..|ws| - 1]);
    }
  }

  lemma InitInv(c: Config)
    ensures Inv(c, Init(c))
  {
    InitTyped(c.scale);
    NoCommits(Init(c).workers);
  }

  lemma {:induction false} CommitsUpdate(ws: seq<Worker>, w: nat, x: Worker)
    requires w < |ws|
    ensures Commits(ws[w := x]) == Commits(ws) - ws[w].commits + x.commits
  {
    var ws' := ws[w := x];
    if w == |ws| - 1 {
      assert ws'[..|ws| - 1] == ws[..|ws| - 1];
    } else {
      CommitsUpdate(ws[..|ws| - 1], w, x);
      assert ws'[..|ws| - 1] == ws[..|ws| - 1][w := x];
    }
  }

  lemma TypedView(scale: nat, m: Store, account: int)
    requires Typed(scale, m) && 0 <= account < scale
    ensures Account(account) in m && m[Account(account)].Balance?
  {
  }

  lemma DebitOk(c: Config, db: Db<Row, Cell>, w: nat, x: Worker, e: nat)
    requires x.pc.AtUpdate? && x.txn.writes == map[] && 0 <= x.account < c.scale
    requires x.txn.begin <= e < |db.versions| && Typed(c.scale, db.versions[e])
    ensures TxnOk(c, db, w, Debit(x, View(db, x.txn, e), e))
  {
    TypedView(c.scale, db.versions[e], x.account);
    assert db.versions[e] + map[] == db.versions[e];
  }

  lemma RecordOk(c: Config, db: Db<Row, Cell>, w: nat, x: Worker, e: nat)
    requires x.pc.AtAppend? && TxnOk(c, db, w, x) && x.txn.begin <= e < |db.versions|
    ensures TxnOk(c, db, w, Record(x, HistoryId(w, x.round), View(db, x.txn, e), e))
  {
    assert History(HistoryId(w, x.round)) !in x.txn.writes;
  }

  lemma CommitsKept(c: Config, s: State, a: Action)
    requires Enabled(c, s, a) && !a.CommitOk?
    ensures NextWorker(c, s, a).commits == s.workers[a.w].commits
  {
  }

  lemma CheckOk(c: Config, db: Db<Row, Cell>, w: nat, x: Worker, view: Store)
    requires x.pc.AtRead? && TxnOk(c, db, w, x)
    ensures TxnOk(c, db, w, Check(x, view))
  {
  }

  lemma OutsideOk(c: Config, db: Db<Row, Cell>, w: nat, y: Worker)
    requires !InBody(y.pc) && !y.pc.AtCommit? && (y.pc.AtBegin? ==> 0 <= y.account < c.scale)
    ensures TxnOk(c, db, w, y)
  {
  }

  lemma UpdateStep(c: Config, s: State, w: nat, e: nat)
    requires Inv(c, s) && Enabled(c, s, Update(w, e))
    ensures TxnOk(c, s.db, w, NextWorker(c, s, Update(w, e)))
  {
    var x := s.workers[w];
    assert TxnOk(c, s.db, w, x);
    DebitOk(c, s.db, w, if c.concurrent then x else x.(txn := Txn(e, x.txn.writes)), e);
  }

  lemma AppendStep(c: Config, s: State, w: nat, e: nat)
    requires Inv(c, s) && Enabled(c, s, Append(w, e))
    ensures TxnOk(c, s.db, w, NextWorker(c, s, Append(w, e)))
  {
    GateServes(c, s, w, e);
    RecordOk(c, s.db, w, s.workers[w], e);
  }

  lemma ReadStep(c: Config, s: State, w: nat, e: nat)
    requires Inv(c, s) && Enabled(c, s, Read(w, e))
    ensures TxnOk(c, s.db, w, NextWorker(c, s, Read(w, e)))
  {
    CheckOk(c, s.db, w, s.workers[w], View(s.db, s.workers[w].txn, e));
  }

  /** Steps that run no statement leave a transaction that has ended, or begin one. */
  lemma OtherStep(c: Config, s: State, a: Action)
    requires Enabled(c, s, a) && !a.CommitOk? && !a.Update? && !a.Append? && !a.Read?
    requires TxnOk(c, s.db, a.w, s.workers[a.w])
    ensures TxnOk(c, s.db, a.w, NextWorker(c, s, a))
  {
    if a.BeginTxn? {
    } else {
      OutsideOk(c, s.db, a.w, NextWorker(c, s, a));
    }
  }

  /** The worker that steps keeps its own transaction account, unless it commits. */
  lemma WorkerStep(c: Config, s: State, a: Action)
    requires Inv(c, s) && Enabled(c, s, a) && !a.CommitOk?
    ensures TxnOk(c, s.db, a.w, NextWorker(c, s, a))
  {
    match a
    case Update(w, e) => UpdateStep(c, s, w, e);
    case Append(w, e) => AppendStep(c, s, w, e);
    case Read(w, e) => ReadStep(c, s, w, e);
    case _ => OtherStep(c, s, a);
  }

  /** A statement after the first write is served no earlier than the transaction's begin. */
  lemma GateServes(c: Config, s: State, w: nat, e: nat)
    requires GateOk(c, s) && w < |s.workers| && HasWritten(s.workers[w].pc) && Serves(c, s, s.workers[w].txn, e)
    ensures s.workers[w].txn.begin <= e < |s.db.versions|
  {
  }

  /** Only the first write of a plain transaction takes the gate, and it must be free. */
  lemma GateStep(c: Config, s: State, a: Action)
    requires GateOk(c, s) && Enabled(c, s, a) && !a.CommitOk?
    ensures GateOk(c, Step(c, s, a))
  {
    var s' := Step(c, s, a);
    if !c.concurrent {
      forall w | 0 <= w < |s'.workers| && HasWritten(s'.workers[w].pc)
        ensures s'.gate == HeldBy(w) && s'.workers[w].txn.begin == |s'.db.versions| - 1
      {
        if w != a.w {
          assert s'.workers[w] == s.workers[w];
          assert s.gate == HeldBy(w);
        } else if !a.Update? {
          assert HasWritten(s.workers[w].pc);
        }
      }
    }
  }

  lemma QuietStep(c: Config, s: State, a: Action)
    requires Inv(c, s) && Enabled(c, s, a) && !a.CommitOk?
    ensures Inv(c, Step(c, s, a))
  {
    var s' := Step(c, s, a);
    CommitsKept(c, s, a);
    WorkerStep(c, s, a);
    CommitsUpdate(s.workers, a.w, s'.workers[a.w]);
    GateStep(c, s, a);
  }

  /** In plain mode the gate makes validation pass: nothing committed since the first write. */
  lemma GateValidates(c: Config, s: State, w: nat)
    requires Inv(c, s) && Enabled(c, s, CommitOk(w))
    ensures Validates(s.db, s.workers[w].txn)
  {
  }

  /** Writes derived from a balance that is still current are those of the payment. */
  lemma PayOf(m: Store, served: Store, x: Worker, id: int)
    requires Account(x.account) in served && served[Account(x.account)].Balance? && Same(served, m, Account(x.account))
    ensures m + Debited(served, x)[History(id) := Audit(x.account, x.delta)] == Pay(m, Payment(x.account, x.delta, id))
  {
  }

  /** What a worker at COMMIT read of the rows it writes is still current. */
  lemma CommitReads(c: Config, s: State, w: nat)
    requires Inv(c, s) && Enabled(c, s, CommitOk(w))
    ensures var x := s.workers[w];
            && x.updateAt < |s.db.versions| && |s.db.versions| > 0
            && Same(s.db.versions[x.updateAt], Latest(s.db), Account(x.account))
            && History(HistoryId(w, x.round)) !in Latest(s.db)
  {
    var x := s.workers[w];
    assert TxnOk(c, s.db, w, x);
    GateValidates(c, s, w);
    ReadsAreCurrent(s.db, x.txn, Account(x.account), x.updateAt);
    ReadsAreCurrent(s.db, x.txn, History(HistoryId(w, x.round)), x.appendAt);
  }

  /** A transaction that passes validation - or holds the write gate - writes exactly what the whole
      payment would write if it ran alone on the current store. */
  lemma CommitIsSerial(c: Config, s: State, w: nat)
    requires Inv(c, s) && Enabled(c, s, CommitOk(w))
    ensures var x := s.workers[w];
            var p := PaymentOf(s, w);
            Legal(Latest(s.db), p) && Latest(s.db) + x.txn.writes == Pay(Latest(s.db), p)
  {
    var x := s.workers[w];
    CommitReads(c, s, w);
    assert TxnOk(c, s.db, w, x);
    TypedView(c.scale, s.db.versions[x.updateAt], x.account);
    PayOf(Latest(s.db), s.db.versions[x.updateAt], x, HistoryId(w, x.round));
  }

  /** In numbers: the account is debited by the delta drawn, and one history row is added. */
  lemma CommitWrites(c: Config, s: State, w: nat)
    requires Inv(c, s) && Enabled(c, s, CommitOk(w))
    ensures var x, m := s.workers[w], Latest(s.db);
            && Account(x.account) in m && m[Account(x.account)].Balance?
            && m + x.txn.writes
               == m[Account(x.account) := Balance(m[Account(x.account)].amount - x.delta)]
                  [History((w + 1) * 1_000_000 + x.round) := Audit(x.account, x.delta)]
  {
    CommitIsSerial(c, s, w);
  }

  lemma PayKeepsTyped(scale: nat, m: Store, p: Payment)
    requires Typed(scale, m)
    ensures Typed(scale, Pay(m, p))
  {
  }

  /** A new version takes nothing away from the transactions still open. */
  lemma TxnFrame(c: Config, db: Db<Row, Cell>, db': Db<Row, Cell>, w: nat, x: Worker)
    requires TxnOk(c, db, w, x) && db.versions <= db'.versions
    ensures TxnOk(c, db', w, x)
  {
  }

  lemma CommitStore(c: Config, s: State, w: nat)
    requires Inv(c, s) && Enabled(c, s, CommitOk(w))
    ensures StoreOk(c, Step(c, s, CommitOk(w)))
  {
    var x := s.workers[w];
    var s' := Step(c, s, CommitOk(w));
    var p := PaymentOf(s, w);
    CommitIsSerial(c, s, w);
    CommitKeepsValid(s.db, x.txn);
    CommitKeepsVersions(s.db, x.txn);
    PayKeepsTyped(c.scale, Latest(s.db), p);
    assert s'.log[..|s'.log| - 1] == s.log;
  }

  lemma CommitTxns(c: Config, s: State, w: nat)
    requires Inv(c, s) && Enabled(c, s, CommitOk(w))
    ensures var s' := Step(c, s, CommitOk(w));
            forall v :: 0 <= v < |s'.workers| ==> TxnOk(c, s'.db, v, s'.workers[v])
  {
    var s' := Step(c, s, CommitOk(w));
    CommitKeepsVersions(s.db, s.workers[w].txn);
    OutsideOk(c, s'.db, w, s'.workers[w]);
    forall v | 0 <= v < |s'.workers| ensures TxnOk(c, s'.db, v, s'.workers[v]) {
      if v != w { TxnFrame(c, s.db, s'.db, v, s.workers[v]); }
    }
  }

  lemma CommitGate(c: Config, s: State, w: nat)
    requires GateOk(c, s) && Enabled(c, s, CommitOk(w))
    ensures GateOk(c, Step(c, s, CommitOk(w)))
  {
    assert !c.concurrent ==> s.gate == HeldBy(w);
  }

  lemma CommitStep(c: Config, s: State, w: nat)
    requires Inv(c, s) && Enabled(c, s, CommitOk(w))
    ensures Inv(c, Step(c, s, CommitOk(w)))
  {
    CommitStore(c, s, w);
    CommitTxns(c, s, w);
    CommitGate(c, s, w);
    CommitsUpdate(s.workers, w, NextWorker(c, s, CommitOk(w)));
  }

  /** Every step of every kind keeps the invariant. */
  lemma StepInv(c: Config, s: State, a: Action)
    requires Inv(c, s) && Enabled(c, s, a)
    ensures Inv(c, Step(c, s, a))
  {
    if a.CommitOk? { CommitStep(c, s, a.w); } else { QuietStep(c, s, a); }
  }

  lemma {:induction false} RunInv(c: Config, ss: seq<State>, acts: seq<Action>, i: nat)
    requires IsRun(c, ss, acts) && i < |ss|
    ensures Inv(c, ss[i])
  {
    if i == 0 {
      InitInv(c);
    } else {
      RunInv(c, ss, acts, i - 1);
      StepInv(c, ss[i - 1], acts[i - 1]);
    }
  }

  // ----- what the integrity queries answer

  function BalanceOf(k: Row, v: Cell): int { if k.Account? && v.Balance? then v.amount else 0 }
  function DeltaOf(k: Row, v: Cell): int { if k.History? && v.Audit? then v.delta else 0 }
  function OneOf(k: Row, v: Cell): int { if k.History? then 1 else 0 }

  ghost function SumBalance(m: Store): int { Total(m, BalanceOf) }
  ghost function SumDelta(m: Store): int { Total(m, DeltaOf) }
  ghost function CountHistory(m: Store): int { Total(m, OneOf) }

  lemma {:induction false} InitSums(scale: nat)
    ensures SumBalance(InitStore(scale)) == START_BALANCE * scale
    ensures SumDelta(InitStore(scale)) == 0 && CountHistory(InitStore(scale)) == 0
  {
    if scale == 0 {
    } else {
      var m, k, v := InitStore(scale - 1), Account(scale - 1), Balance(START_BALANCE);
      InitSums(scale - 1);
      InitTyped(scale - 1);
      TotalWrite(m, BalanceOf, k, v);
      TotalWrite(m, DeltaOf, k, v);
      TotalWrite(m, OneOf, k, v);
    }
  }

  lemma PaySums(m: Store, p: Payment)
    requires Legal(m, p)
    ensures SumBalance(Pay(m, p)) == SumBalance(m) - p.delta
    ensures SumDelta(Pay(m, p)) == SumDelta(m) + p.delta
    ensures CountHistory(Pay(m, p)) == CountHistory(m) + 1
  {
    var k, h := Account(p.account), History(p.id);
    var v, u := Balance(m[k].amount - p.delta), Audit(p.account, p.delta);
    var m1 := m[k := v];
    TotalWrite(m, BalanceOf, k, v);
    TotalWrite(m, DeltaOf, k, v);
    TotalWrite(m, OneOf, k, v);
    TotalWrite(m1, BalanceOf, h, u);
    TotalWrite(m1, DeltaOf, h, u);
    TotalWrite(m1, OneOf, h, u);
  }

  lemma {:induction false} SerialSums(m: Store, log: seq<Payment>)
    requires SerialLegal(m, log)
    ensures SumBalance(Serial(m, log)) + SumDelta(Serial(m, log)) == SumBalance(m) + SumDelta(m)
    ensures CountHistory(Serial(m, log)) == CountHistory(m) + |log|
  {
    if log == [] {
    } else {
      SerialSums(m, log[..|log| - 1]);
      PaySums(Serial(m, log[..|log| - 1]), log[|log| - 1]);
    }
  }

  /** In every state of every run: the store is what the committed payments leave when they run one
      after the other in commit order, the balances and the history deltas reconcile, and there is
      one history row per successful commit. */
  lemma BurstIntegrity(c: Config, ss: seq<State>, acts: seq<Action>, i: nat)
    requires IsRun(c, ss, acts) && i < |ss|
    ensures |ss[i].db.versions| > 0
    ensures var m := Latest(ss[i].db);
            && m == Serial(InitStore(c.scale), ss[i].log)
            && SumBalance(m) == 10_000 * c.scale - SumDelta(m)
            && CountHistory(m) == Commits(ss[i].workers)
  {
    RunInv(c, ss, acts, i);
    InitSums(c.scale);
    SerialSums(InitStore(c.scale), ss[i].log);
  }

  /** The reset between two modes brings back the seeded accounts and an empty history, whatever
      the burst before it left. */
  lemma ResetRestores(c: Config, ss: seq<State>, acts: seq<Action>, i: nat)
    requires IsRun(c, ss, acts) && i < |ss|
    ensures |ss[i].db.versions| > 0
    ensures var m := Reset(Latest(ss[i].db));
            && m == InitStore(c.scale)
            && (forall k :: k in m <==> k.Account? && 0 <= k.id < c.scale)
            && (forall k :: k in m ==> m[k] == Balance(10_000))
  {
    RunInv(c, ss, acts, i);
    InitTyped(c.scale);
    InitCells(c.scale);
  }

  lemma {:induction false} InitCells(scale: nat)
    ensures forall k :: k in InitStore(scale) <==> k.Account? && 0 <= k.id < scale
    ensures forall k :: k in InitStore(scale) ==> InitStore(scale)[k] == Balance(10_000)
  {
    if scale == 0 {
    } else {
      InitCells(scale - 1);
    }
  }
}
