/** Readers beside one open write transaction, under statement-scoped locks: the writer takes the
    database lock for one statement at a time, a reader holds it (shared) for one point lookup and one
    count, and readers read the last committed version. */
module SnapshotReaders {
  import opened Finite
  import opened RowStore

  type Table = map<int, int>

  /** initial rows before the writer starts; the writer inserts that many more. */
  datatype Config = Config(initial: nat, inserts: nat, readers: nat)

  datatype WriterPc = Before | Writing(next: nat) | Committed
  /** A reader outside the lock, holding it before its lookup, or between lookup and count. */
  datatype ReaderPc = Outside | Locked | LookedUp

  /** An answer, with the number of commits that the answering version comes after. */
  datatype Answer = Answer(epoch: int, rows: nat)

  /** One lookup and one count for each completed iteration, and the lookup of an open one. */
  datatype Reader = Reader(pc: ReaderPc, ops: nat, found: seq<Answer>, counts: seq<Answer>)
  datatype State = State(db: Db<int, int>, writer: WriterPc, txn: Txn<int, int>, readers: seq<Reader>)

  datatype Action = Begin | Insert | CommitAll | Lock(r: nat) | Lookup(r: nat) | Count(r: nat)

  function Filled(n: nat): Table {
    if n == 0 then map[] else Filled(n - 1)[n - 1 := n - 1]
  }

  function Init(c: Config): State {
    State(Start(Filled(c.initial)), Before, Txn(0, map[]), seq(c.readers, _ => Reader(Outside, 0, [], [])))
  }

  /** The writer can lock the database only while no reader holds it. */
  predicate Unlocked(s: State) { forall r :: 0 <= r < |s.readers| ==> s.readers[r].pc.Outside? }

  predicate Enabled(c: Config, s: State, a: Action) {
    && |s.db.versions| > 0
    && match a
       case Begin => s.writer.Before? && Unlocked(s)
       case Insert => s.writer.Writing? && s.writer.next < c.inserts && Unlocked(s)
       case CommitAll => s.writer.Writing? && s.writer.next == c.inserts && Unlocked(s)
       case Lock(r) => r < |s.readers| && s.readers[r].pc.Outside?
       case Lookup(r) => r < |s.readers| && s.readers[r].pc.Locked?
       case Count(r) => r < |s.readers| && s.readers[r].pc.LookedUp?
  }

  /** The id that a reader looks up in its iteration j. */
  function LookupId(c: Config, j: nat): int { if c.initial == 0 then 0 else j % c.initial }

  function RowsWith(m: Table, id: int): nat { if id in m then 1 else 0 }

  function NextReader(c: Config, s: State, a: Action): Reader
    requires Enabled(c, s, a) && (a.Lock? || a.Lookup? || a.Count?)
  {
    var x := s.readers[a.r];
    match a
    case Lock(_) => x.(pc := Locked)
    case Lookup(_) =>
      x.(pc := LookedUp, found := x.found + [Answer(Epoch(s.db), RowsWith(Latest(s.db), LookupId(c, x.ops)))])
    case Count(_) =>
      x.(pc := Outside, ops := x.ops + 1, counts := x.counts + [Answer(Epoch(s.db), |Latest(s.db)|)])
  }

  function Step(c: Config, s: State, a: Action): State
    requires Enabled(c, s, a)
  {
    match a
    case Begin => s.(writer := Writing(0), txn := Txn(|s.db.versions| - 1, map[]))
    case Insert =>
      var i := s.writer.next;
      s.(writer := Writing(i + 1), txn := s.txn.(writes := s.txn.writes[c.initial + i := i]))
    case CommitAll => s.(writer := Committed, db := Commit(s.db, s.txn))
    case _ => s.(readers := s.readers[a.r := NextReader(c, s, a)])
  }

  ghost predicate IsRun(c: Config, ss: seq<State>, acts: seq<Action>) {
    && |ss| == |acts| + 1 && ss[0] == Init(c)
    && forall i :: 0 <= i < |acts| ==> Enabled(c, ss[i], acts[i]) && ss[i + 1] == Step(c, ss[i], acts[i])
  }

  // ----- the two tables a reader may see

  /** What the writer has inserted after k statements. */
  function Inserted(c: Config, k: nat): Table {
    if k == 0 then map[] else Inserted(c, k - 1)[c.initial + (k - 1) := k - 1]
  }

  /** The table before the commit, and after it. */
  function TableAt(c: Config, epoch: int): Table {
    if epoch == 0 then Filled(c.initial) else Filled(c.initial) + Inserted(c, c.inserts)
  }

  lemma {:induction false} FilledKeys(n: nat)
    ensures forall id :: id in Filled(n) <==> 0 <= id < n
  {
    if n == 0 {
    } else {
      FilledKeys(n - 1);
    }
  }

  lemma {:induction false} InsertedKeys(c: Config, k: nat)
    ensures forall id :: id in Inserted(c, k) <==> c.initial <= id < c.initial + k
  {
    if k == 0 {
    } else {
      InsertedKeys(c, k - 1);
    }
  }

  lemma {:induction false} FilledSize(n: nat)
    ensures |Filled(n)| == n
  {
    if n == 0 {
    } else {
      FilledSize(n - 1);
      FilledKeys(n - 1);
      PutSize(Filled(n - 1), n - 1, n - 1);
    }
  }

  lemma {:induction false} InsertedSize(c: Config, k: nat)
    ensures |Inserted(c, k)| == k
  {
    if k == 0 {
    } else {
      InsertedSize(c, k - 1);
      InsertedKeys(c, k - 1);
      PutSize(Inserted(c, k - 1), c.initial + (k - 1), k - 1);
    }
  }

  /** The rows of the two tables: the new one has all the old ones and every insert. */
  lemma TableRows(c: Config, epoch: int)
    ensures |TableAt(c, epoch)| == if epoch == 0 then c.initial else c.initial + c.inserts
    ensures forall id :: id in TableAt(c, epoch) <==> 0 <= id < if epoch == 0 then c.initial else c.initial + c.inserts
  {
    FilledKeys(c.initial);
    FilledSize(c.initial);
    InsertedKeys(c, c.inserts);
    InsertedSize(c, c.inserts);
    forall id | id in Filled(c.initial) ensures id !in Inserted(c, c.inserts) {}
    UnionSize(Filled(c.initial), Inserted(c, c.inserts));
  }

  // ----- the invariant

  ghost predicate StoreOk(c: Config, s: State) {
    && (s.writer.Writing? ==> s.writer.next <= c.inserts && s.txn.writes == Inserted(c, s.writer.next))
    && |s.db.versions| == (if s.writer.Committed? then 2 else 1)
    && forall e :: 0 <= e < |s.db.versions| ==> s.db.versions[e] == TableAt(c, e)
  }

  /** An answer given by version e of the store, up to the present one. */
  predicate AnswerOk(c: Config, now: int, a: Answer, rows: nat) { 0 <= a.epoch <= now && a.rows == rows }

  /** Every iteration has one lookup and one count from one and the same version, versions never go
      back, and a reader between its lookup and its count holds the present version. */
  ghost predicate ReaderOk(c: Config, now: int, x: Reader) {
    && |x.counts| == x.ops && |x.found| == x.ops + (if x.pc.LookedUp? then 1 else 0)
    && (forall j :: 0 <= j < |x.found| ==>
                      AnswerOk(c, now, x.found[j], RowsWith(TableAt(c, x.found[j].epoch), LookupId(c, j))))
    && (forall j :: 0 <= j < |x.counts| ==> AnswerOk(c, now, x.counts[j], |TableAt(c, x.counts[j].epoch)|))
    && (forall j :: 0 <= j < |x.counts| ==> x.counts[j].epoch == x.found[j].epoch)
    && (forall i, j :: 0 <= i < j < |x.found| ==> x.found[i].epoch <= x.found[j].epoch)
    && (x.pc.LookedUp? ==> x.found[x.ops].epoch == now)
  }

  ghost predicate Inv(c: Config, s: State) {
    && StoreOk(c, s) && |s.readers| == c.readers
    && forall r :: 0 <= r < |s.readers| ==> ReaderOk(c, Epoch(s.db), s.readers[r])
  }

  lemma CommitStep(c: Config, s: State)
    requires StoreOk(c, s) && Enabled(c, s, CommitAll)
    ensures StoreOk(c, Step(c, s, CommitAll))
  {
    CommitKeepsVersions(s.db, s.txn);
  }

  /** A reader outside the lock does not notice a commit. */
  lemma OutsideKeeps(c: Config, now: int, x: Reader)
    requires ReaderOk(c, now, x) && x.pc.Outside?
    ensures ReaderOk(c, now + 1, x)
  {
  }

  lemma LookupKeeps(c: Config, s: State, r: nat)
    requires Inv(c, s) && Enabled(c, s, Lookup(r))
    ensures ReaderOk(c, Epoch(s.db), NextReader(c, s, Lookup(r)))
  {
    assert ReaderOk(c, Epoch(s.db), s.readers[r]);
    assert Latest(s.db) == TableAt(c, Epoch(s.db));
  }

  /** The count of an iteration is answered by the version that answered its lookup. */
  lemma CountKeeps(c: Config, s: State, r: nat)
    requires Inv(c, s) && Enabled(c, s, Count(r))
    ensures ReaderOk(c, Epoch(s.db), NextReader(c, s, Count(r)))
  {
    assert ReaderOk(c, Epoch(s.db), s.readers[r]);
    assert Latest(s.db) == TableAt(c, Epoch(s.db));
  }

  lemma ReaderKeeps(c: Config, s: State, a: Action)
    requires Inv(c, s) && Enabled(c, s, a) && (a.Lock? || a.Lookup? || a.Count?)
    ensures ReaderOk(c, Epoch(s.db), NextReader(c, s, a))
  {
    match a
    case Lock(r) => assert ReaderOk(c, Epoch(s.db), s.readers[r]);
    case Lookup(r) => LookupKeeps(c, s, r);
    case Count(r) => CountKeeps(c, s, r);
  }

  lemma ReaderStep(c: Config, s: State, a: Action)
    requires Inv(c, s) && Enabled(c, s, a) && (a.Lock? || a.Lookup? || a.Count?)
    ensures Inv(c, Step(c, s, a))
  {
    ReaderKeeps(c, s, a);
  }

  lemma WriterStep(c: Config, s: State, a: Action)
    requires Inv(c, s) && Enabled(c, s, a) && (a.Begin? || a.Insert? || a.CommitAll?)
    ensures Inv(c, Step(c, s, a))
  {
    if a.CommitAll? {
      CommitStep(c, s);
      ReadersOutside(c, s);
    }
  }

  lemma ReadersOutside(c: Config, s: State)
    requires Inv(c, s) && Unlocked(s)
    ensures forall r :: 0 <= r < |s.readers| ==> ReaderOk(c, Epoch(s.db) + 1, s.readers[r])
  {
    forall r | 0 <= r < |s.readers| ensures ReaderOk(c, Epoch(s.db) + 1, s.readers[r]) {
      OutsideKeeps(c, Epoch(s.db), s.readers[r]);
    }
  }

  /** Every step of writer and readers keeps the invariant. The commit needs the lock: it comes between
      no reader's lookup and count. */
  lemma StepInv(c: Config, s: State, a: Action)
    requires Inv(c, s) && Enabled(c, s, a)
    ensures Inv(c, Step(c, s, a))
  {
    if a.Lock? || a.Lookup? || a.Count? { ReaderStep(c, s, a); } else { WriterStep(c, s, a); }
  }

  lemma {:induction false} RunInv(c: Config, ss: seq<State>, acts: seq<Action>, i: nat)
    requires IsRun(c, ss, acts) && i < |ss|
    ensures Inv(c, ss[i])
  {
    if i == 0 {
    } else {
      RunInv(c, ss, acts, i - 1);
      StepInv(c, ss[i - 1], acts[i - 1]);
    }
  }

  // ----- who waits for whom

  /** A reader never waits, neither for the writer nor for another reader: it can always take its next step. */
  lemma ReadersNeverWait(c: Config, ss: seq<State>, acts: seq<Action>, i: nat, r: nat)
    requires IsRun(c, ss, acts) && i < |ss| && r < c.readers
    ensures |ss[i].readers| == c.readers
    ensures Enabled(c, ss[i], Lock(r)) || Enabled(c, ss[i], Lookup(r)) || Enabled(c, ss[i], Count(r))
  {
    RunInv(c, ss, acts, i);
  }

  /** The writer can take its next step exactly when no reader is between its lock and its count. */
  lemma WriterWaitsIff(c: Config, ss: seq<State>, acts: seq<Action>, i: nat)
    requires IsRun(c, ss, acts) && i < |ss| && !ss[i].writer.Committed?
    ensures Enabled(c, ss[i], Begin) || Enabled(c, ss[i], Insert) || Enabled(c, ss[i], CommitAll)
       <==> forall r :: 0 <= r < |ss[i].readers| ==> !ss[i].readers[r].pc.Locked? && !ss[i].readers[r].pc.LookedUp?
  {
    RunInv(c, ss, acts, i);
  }

  // ----- what a reader can rely on

  /** Iteration j of one reader: its lookup and its count answer from one and the same table, which is
      the initial one or the final one and never one between. */
  lemma OneTablePerIteration(c: Config, ss: seq<State>, acts: seq<Action>, i: nat, r: nat, j: nat)
    requires IsRun(c, ss, acts) && i < |ss| && r < c.readers
    ensures |ss[i].readers| == c.readers
            && ss[i].readers[r].ops == |ss[i].readers[r].counts| <= |ss[i].readers[r].found|
    ensures j < ss[i].readers[r].ops ==>
              var x := ss[i].readers[r];
              && x.found[j].epoch == x.counts[j].epoch && 0 <= x.counts[j].epoch <= 1
              && x.found[j].rows == RowsWith(TableAt(c, x.counts[j].epoch), LookupId(c, j))
              && x.counts[j].rows == (if x.counts[j].epoch == 0 then c.initial else c.initial + c.inserts)
              && (c.initial > 0 ==> x.found[j].rows == 1)
              && (!ss[i].writer.Committed? ==> x.counts[j].epoch == 0)
  {
    RunInv(c, ss, acts, i);
    assert ReaderOk(c, Epoch(ss[i].db), ss[i].readers[r]);
    if j < ss[i].readers[r].ops {
      var x := ss[i].readers[r];
      TableRows(c, x.counts[j].epoch);
      if c.initial > 0 { assert 0 <= LookupId(c, j) < c.initial; }
    }
  }

  lemma NewCount(c: Config, epoch: int)
    requires |TableAt(c, epoch)| != c.initial
    ensures epoch != 0
  {
    TableRows(c, epoch);
  }

  /** Once a reader has counted other rows than the initial ones, every later lookup and count of that
      reader is answered by the final table. */
  lemma NeverBack(c: Config, ss: seq<State>, acts: seq<Action>, i: nat, r: nat, j: nat, k: nat)
    requires IsRun(c, ss, acts) && i < |ss| && r < |ss[i].readers| && j <= k
    requires j < |ss[i].readers[r].counts| && ss[i].readers[r].counts[j].rows != c.initial
    ensures k < |ss[i].readers[r].found| ==> ss[i].readers[r].found[k].epoch == 1
    ensures k < |ss[i].readers[r].counts| ==> ss[i].readers[r].counts[k].rows == c.initial + c.inserts
  {
    RunInv(c, ss, acts, i);
    var x := ss[i].readers[r];
    assert ReaderOk(c, Epoch(ss[i].db), x);
    NewCount(c, x.counts[j].epoch);
    if k < |x.counts| { TableRows(c, x.counts[k].epoch); }
  }

  lemma {:induction false} EpochsGrow(c: Config, ss: seq<State>, acts: seq<Action>, i: nat, j: nat)
    requires IsRun(c, ss, acts) && i <= j < |ss|
    ensures Epoch(ss[i].db) <= Epoch(ss[j].db)
    decreases j - i
  {
    if i == j {
    } else {
      EpochsGrow(c, ss, acts, i, j - 1);
    }
  }

  /** The same across readers: after any reader has counted the new rows, every reader is answered by
      the final table. */
  lemma NewRowsStay(c: Config, ss: seq<State>, acts: seq<Action>, i: nat, j: nat)
    requires IsRun(c, ss, acts) && i < j < |acts| && acts[i].Count? && (acts[j].Lookup? || acts[j].Count?)
    ensures |ss[i].db.versions| > 0 && |ss[j].db.versions| > 0
    ensures |Latest(ss[i].db)| != c.initial ==> Latest(ss[j].db) == TableAt(c, 1)
  {
    RunInv(c, ss, acts, i);
    RunInv(c, ss, acts, j);
    EpochsGrow(c, ss, acts, i, j);
    if |Latest(ss[i].db)| != c.initial {
      NewCount(c, Epoch(ss[i].db));
    }
  }
}
