/** The barrier, the retry budget and the end of the burst: how far connections drift apart, how
    long a run can be, whether it can get stuck, and when a worker can panic by itself. */
module BurstProgress {
  import opened Finite
  import opened RowStore
  import opened OltpBurst

  // ----- sums over the workers

  function CountWaiting(ws: seq<Worker>, g: nat): nat {
    if ws == [] then 0
    else CountWaiting(ws[..|ws| - 1], g) + if ws[|ws| - 1].pc == Waiting(g) then 1 else 0
  }

  lemma {:induction false} CountWaitingUpdate(ws: seq<Worker>, g: nat, w: nat, x: Worker)
    requires w < |ws|
    ensures CountWaiting(ws[w := x], g) == CountWaiting(ws, g)
                                           - (if ws[w].pc == Waiting(g) then 1 else 0)
                                           + (if x.pc == Waiting(g) then 1 else 0)
  {
    var ws' := ws[w := x];
    if w == |ws| - 1 {
      assert ws'[..|ws| - 1] == ws[..|ws| - 1];
    } else {
      CountWaitingUpdate(ws[..|ws| - 1], g, w, x);
      assert ws'[..|ws| - 1] == ws[..|ws| - 1][w := x];
    }
  }

  lemma {:induction false} CountWaitingFull(ws: seq<Worker>, g: nat)
    ensures CountWaiting(ws, g) <= |ws|
    ensures CountWaiting(ws, g) == |ws| <==> forall v :: 0 <= v < |ws| ==> ws[v].pc == Waiting(g)
  {
    if ws == [] {
    } else {
      var rest := ws[..|ws| - 1];
      CountWaitingFull(rest, g);
      assert forall v :: 0 <= v < |rest| ==> rest[v] == ws[v];
    }
  }

  lemma {:induction false} CountWaitingNone(ws: seq<Worker>, g: nat)
    requires forall v :: 0 <= v < |ws| ==> ws[v].pc != Waiting(g)
    ensures CountWaiting(ws, g) == 0
  {
    if ws == [] {
    } else {
      assert forall v :: 0 <= v < |ws| - 1 ==> ws[..|ws| - 1][v] == ws[v];
      CountWaitingNone(ws[..|ws| - 1], g);
    }
  }

  // ----- the barrier

  predicate InRound(pc: Pc) { pc.AtBegin? || InBody(pc) || pc.AtCommit? || pc.AtBarrier? }

  /** One worker against the barrier generation g: a worker is in round g, or still has to wake from
      the barrier of the round before. */
  ghost predicate WorkerOk(c: Config, g: nat, x: Worker) {
    && (if x.pc.Waiting? then x.pc.generation == x.round && (x.round == g || x.round + 1 == g) else x.round == g)
    && x.round <= c.rounds
    && (InRound(x.pc) || x.pc.Waiting? || x.pc.Panicked? ==> x.round < c.rounds)
    && (x.pc.Finished? ==> x.round == c.rounds)
    && x.attempt <= ATTEMPTS
    && x.begun <= ATTEMPTS * x.round + (if x.pc.AtTop? || x.pc.Finished? then 0 else x.attempt)
  }

  ghost predicate BarrierOk(c: Config, s: State) {
    && |s.workers| == c.conns
    && (forall w :: 0 <= w < |s.workers| ==> WorkerOk(c, s.generation, s.workers[w]))
    && s.arrived == CountWaiting(s.workers, s.generation)
    && (c.conns > 0 ==> s.arrived < c.conns)
  }

  lemma BarrierInit(c: Config)
    ensures BarrierOk(c, Init(c))
  {
    CountWaitingNone(Init(c).workers, 0);
  }

  /** The last arrival opens the barrier only when every other worker waits at it. */
  lemma LastArrival(c: Config, s: State, w: nat)
    requires BarrierOk(c, s) && Enabled(c, s, Arrive(w)) && s.arrived + 1 == c.conns
    ensures forall v :: 0 <= v < |s.workers| && v != w ==> s.workers[v].pc == Waiting(s.generation)
  {
    var x := s.workers[w].(pc := Waiting(s.generation));
    CountWaitingUpdate(s.workers, s.generation, w, x);
    CountWaitingFull(s.workers[w := x], s.generation);
    forall v | 0 <= v < |s.workers| && v != w ensures s.workers[v].pc == Waiting(s.generation) {
      assert s.workers[w := x][v] == s.workers[v];
    }
  }

  lemma BarrierOpens(c: Config, s: State, w: nat)
    requires BarrierOk(c, s) && Enabled(c, s, Arrive(w)) && s.arrived + 1 == c.conns
    ensures BarrierOk(c, Step(c, s, Arrive(w)))
  {
    var s' := Step(c, s, Arrive(w));
    LastArrival(c, s, w);
    forall v | 0 <= v < |s'.workers|
      ensures WorkerOk(c, s'.generation, s'.workers[v]) && s'.workers[v].pc != Waiting(s'.generation)
    {
      assert WorkerOk(c, s.generation, s.workers[v]);
      if v != w { assert s'.workers[v] == s.workers[v]; }
    }
    CountWaitingNone(s'.workers, s'.generation);
  }

  lemma WorkerKeeps(c: Config, s: State, a: Action)
    requires Enabled(c, s, a) && WorkerOk(c, s.generation, s.workers[a.w]) && !Opens(c, s, a)
    ensures WorkerOk(c, s.generation, NextWorker(c, s, a))
    ensures NextWorker(c, s, a).pc == Waiting(s.generation) <==> a.Arrive?
    ensures s.workers[a.w].pc != Waiting(s.generation)
  {
    var x := s.workers[a.w];
    assert ATTEMPTS * (x.round + 1) == ATTEMPTS * x.round + ATTEMPTS;
  }

  lemma BarrierStays(c: Config, s: State, a: Action)
    requires BarrierOk(c, s) && Enabled(c, s, a) && !Opens(c, s, a)
    ensures BarrierOk(c, Step(c, s, a))
  {
    WorkerKeeps(c, s, a);
    CountKeeps(c, s, a);
  }

  /** The barrier still counts the workers that wait, and not all of them do. */
  lemma CountKeeps(c: Config, s: State, a: Action)
    requires BarrierOk(c, s) && Enabled(c, s, a) && !Opens(c, s, a)
    ensures CountWaiting(Step(c, s, a).workers, s.generation) == Step(c, s, a).arrived < c.conns
  {
    WorkerKeeps(c, s, a);
    CountWaitingUpdate(s.workers, s.generation, a.w, NextWorker(c, s, a));
    CountWaitingFull(s.workers, s.generation);
  }

  lemma BarrierStep(c: Config, s: State, a: Action)
    requires BarrierOk(c, s) && Enabled(c, s, a)
    ensures BarrierOk(c, Step(c, s, a))
  {
    if Opens(c, s, a) {
      BarrierOpens(c, s, a.w);
    } else {
      BarrierStays(c, s, a);
    }
  }

  lemma {:induction false} RunBarrier(c: Config, ss: seq<State>, acts: seq<Action>, i: nat)
    requires IsRun(c, ss, acts) && i < |ss|
    ensures BarrierOk(c, ss[i])
  {
    if i == 0 {
      BarrierInit(c);
    } else {
      RunBarrier(c, ss, acts, i - 1);
      BarrierStep(c, ss[i - 1], acts[i - 1]);
    }
  }

  /** In every state of every run no two workers are more than one round apart, and every worker has
      passed the barrier exactly once per completed round. */
  lemma LockStep(c: Config, ss: seq<State>, acts: seq<Action>, i: nat, v: nat, w: nat)
    requires IsRun(c, ss, acts) && i < |ss| && v < c.conns && w < c.conns
    ensures |ss[i].workers| == c.conns
    ensures -1 <= ss[i].workers[v].round - ss[i].workers[w].round <= 1
    ensures ss[i].generation - 1 <= ss[i].workers[w].round <= ss[i].generation
    ensures !ss[i].workers[w].pc.Waiting? ==> ss[i].workers[w].round == ss[i].generation
  {
    RunBarrier(c, ss, acts, i);
    assert WorkerOk(c, ss[i].generation, ss[i].workers[v]) && WorkerOk(c, ss[i].generation, ss[i].workers[w]);
  }

  // ----- how long a run can be

  function Begun(ws: seq<Worker>): nat {
    if ws == [] then 0 else Begun(ws[..|ws| - 1]) + ws[|ws| - 1].begun
  }

  lemma {:induction false} BegunBound(c: Config, g: nat, ws: seq<Worker>)
    requires forall w :: 0 <= w < |ws| ==> WorkerOk(c, g, ws[w])
    ensures Begun(ws) <= ATTEMPTS * c.rounds * |ws|
  {
    if ws == [] {
    } else {
      var rest := ws[..|ws| - 1];
      assert forall w :: 0 <= w < |rest| ==> rest[w] == ws[w];
      BegunBound(c, g, rest);
      BegunOne(c, g, ws[|ws| - 1]);
      NextMultiple(ATTEMPTS * c.rounds, |rest|);
    }
  }

  lemma BegunOne(c: Config, g: nat, x: Worker)
    requires WorkerOk(c, g, x)
    ensures x.begun <= ATTEMPTS * c.rounds
  {
  }

  /** No run begins more than eight attempts per worker and round. */
  lemma AttemptBound(c: Config, ss: seq<State>, acts: seq<Action>, i: nat)
    requires IsRun(c, ss, acts) && i < |ss|
    ensures Begun(ss[i].workers) <= 8 * c.rounds * c.conns
  {
    RunBarrier(c, ss, acts, i);
    BegunBound(c, ss[i].generation, ss[i].workers);
  }

  /** What is left of the current round, in steps. */
  function Stage(x: Worker): int {
    match x.pc
    case AtTop => 45
    case AtBegin => 3 + 5 * (ATTEMPTS - x.attempt)
    case AtUpdate => 7 + 5 * (ATTEMPTS - x.attempt)
    case AtAppend => 6 + 5 * (ATTEMPTS - x.attempt)
    case AtRead => 5 + 5 * (ATTEMPTS - x.attempt)
    case AtCommit => 4 + 5 * (ATTEMPTS - x.attempt)
    case AtBarrier => 2
    case Waiting(_) => 1
    case _ => 0
  }

  function Rank(c: Config, x: Worker): int {
    if x.pc.Finished? || x.pc.Panicked? then 0 else (c.rounds - x.round) * 60 + Stage(x)
  }

  function TotalRank(c: Config, ws: seq<Worker>): int {
    if ws == [] then 0 else TotalRank(c, ws[..|ws| - 1]) + Rank(c, ws[|ws| - 1])
  }

  lemma {:induction false} TotalRankUpdate(c: Config, ws: seq<Worker>, w: nat, x: Worker)
    requires w < |ws|
    ensures TotalRank(c, ws[w := x]) == TotalRank(c, ws) - Rank(c, ws[w]) + Rank(c, x)
  {
    var ws' := ws[w := x];
    if w == |ws| - 1 {
      assert ws'[..|ws| - 1] == ws[..|ws| - 1];
    } else {
      TotalRankUpdate(c, ws[..|ws| - 1], w, x);
      assert ws'[..|ws| - 1] == ws[..|ws| - 1][w := x];
    }
  }

  lemma {:induction false} TotalRankBound(c: Config, g: nat, ws: seq<Worker>)
    requires forall w :: 0 <= w < |ws| ==> WorkerOk(c, g, ws[w])
    ensures 0 <= TotalRank(c, ws) <= (60 * c.rounds + 47) * |ws|
  {
    if ws == [] {
    } else {
      var rest := ws[..|ws| - 1];
      assert forall w :: 0 <= w < |rest| ==> rest[w] == ws[w];
      TotalRankBound(c, g, rest);
      RankBound(c, g, ws[|ws| - 1]);
      NextMultiple(60 * c.rounds + 47, |rest|);
    }
  }

  lemma RankBound(c: Config, g: nat, x: Worker)
    requires WorkerOk(c, g, x)
    ensures 0 <= Rank(c, x) <= 60 * c.rounds + 47
  {
  }

  lemma WorkerRankFalls(c: Config, s: State, a: Action)
    requires Enabled(c, s, a) && WorkerOk(c, s.generation, s.workers[a.w])
    ensures Rank(c, NextWorker(c, s, a)) < Rank(c, s.workers[a.w])
  {
  }

  /** Every step uses up rank. */
  lemma RankFalls(c: Config, s: State, a: Action)
    requires BarrierOk(c, s) && Enabled(c, s, a)
    ensures TotalRank(c, Step(c, s, a).workers) < TotalRank(c, s.workers)
  {
    assert WorkerOk(c, s.generation, s.workers[a.w]);
    WorkerRankFalls(c, s, a);
    TotalRankUpdate(c, s.workers, a.w, NextWorker(c, s, a));
  }

  lemma {:induction false} RankAfter(c: Config, ss: seq<State>, acts: seq<Action>, i: nat)
    requires IsRun(c, ss, acts) && i < |ss|
    ensures TotalRank(c, ss[i].workers) + i <= TotalRank(c, ss[0].workers)
  {
    if i == 0 {
    } else {
      RankAfter(c, ss, acts, i - 1);
      RunBarrier(c, ss, acts, i - 1);
      RankFalls(c, ss[i - 1], acts[i - 1]);
    }
  }

  /** Every run is finite, whatever the engine answers. */
  lemma RunsAreBounded(c: Config, ss: seq<State>, acts: seq<Action>)
    requires IsRun(c, ss, acts)
    ensures |acts| <= (60 * c.rounds + 47) * c.conns
  {
    RankAfter(c, ss, acts, |acts|);
    RunBarrier(c, ss, acts, 0);
    RunBarrier(c, ss, acts, |acts|);
    TotalRankBound(c, ss[0].generation, ss[0].workers);
    TotalRankBound(c, ss[|acts|].generation, ss[|acts|].workers);
  }

  // ----- where a run can stop

  /** The write gate is held only by a transaction that has written. */
  ghost predicate HolderOk(s: State) {
    s.gate.HeldBy? ==> s.gate.worker < |s.workers| && HasWritten(s.workers[s.gate.worker].pc)
  }

  lemma HolderStep(c: Config, s: State, a: Action)
    requires HolderOk(s) && Enabled(c, s, a)
    ensures HolderOk(Step(c, s, a))
  {
  }

  lemma {:induction false} RunHolder(c: Config, ss: seq<State>, acts: seq<Action>, i: nat)
    requires IsRun(c, ss, acts) && i < |ss|
    ensures HolderOk(ss[i])
  {
    if i == 0 {
    } else {
      RunHolder(c, ss, acts, i - 1);
      HolderStep(c, ss[i - 1], acts[i - 1]);
    }
  }

  /** The engine need not refuse or fail anything for the run to go on; it conflicts only a
      transaction that does not validate. */
  ghost predicate Cooperative(s: State, a: Action) {
    !a.Refuse? && !a.Fail? && (a.Conflict? ==> a.w < |s.workers| && !Validates(s.db, s.workers[a.w].txn))
  }

  lemma WriterHasStep(c: Config, s: State, w: nat) returns (a: Action)
    requires Inv(c, s) && Alive(c, s) && w < |s.workers| && HasWritten(s.workers[w].pc)
    ensures Enabled(c, s, a) && Cooperative(s, a) && a.w == w
  {
    var x := s.workers[w];
    var e := |s.db.versions| - 1;
    assert TxnOk(c, s.db, w, x);
    if x.pc.AtAppend? { a := Append(w, e); }
    else if x.pc.AtRead? { a := Read(w, e); }
    else if !c.concurrent || Validates(s.db, x.txn) { a := CommitOk(w); }
    else { a := Conflict(w); }
  }

  /** Nothing more comes from this worker unless the barrier opens. */
  predicate Parked(s: State, x: Worker) {
    x.pc.Finished? || x.pc.Panicked? || x.pc == Waiting(s.generation)
  }

  /** In plain mode the first write of a transaction has to wait while the write gate is held. */
  predicate AtClosedGate(c: Config, s: State, x: Worker) { x.pc.AtUpdate? && !c.concurrent && !s.gate.Free? }

  lemma OwnStep(c: Config, s: State, w: nat) returns (a: Action)
    requires Inv(c, s) && BarrierOk(c, s) && Alive(c, s) && w < |s.workers|
    requires !Parked(s, s.workers[w]) && !AtClosedGate(c, s, s.workers[w])
    ensures Enabled(c, s, a) && Cooperative(s, a) && a.w == w
  {
    var x := s.workers[w];
    assert WorkerOk(c, s.generation, x) && TxnOk(c, s.db, w, x);
    match x.pc
    case AtTop => a := if x.round < c.rounds then Draw(w, 0, 0) else Finish(w);
    case AtBegin => a := if x.attempt < ATTEMPTS then BeginTxn(w) else GiveUp(w);
    case AtUpdate => a := Update(w, |s.db.versions| - 1);
    case AtBarrier => a := Arrive(w);
    case Waiting(_) => a := Wake(w);
    case _ => a := WriterHasStep(c, s, w);
  }

  lemma ActiveHasStep(c: Config, s: State, w: nat) returns (a: Action)
    requires Inv(c, s) && BarrierOk(c, s) && HolderOk(s) && Alive(c, s) && w < |s.workers| && !Parked(s, s.workers[w])
    ensures Enabled(c, s, a) && Cooperative(s, a)
  {
    if AtClosedGate(c, s, s.workers[w]) {
      a := WriterHasStep(c, s, s.gate.worker);
    } else {
      a := OwnStep(c, s, w);
    }
  }

  lemma HeldUp(c: Config, s: State, w: nat, a: Action)
    requires w < |s.workers| && (Parked(s, s.workers[w]) || AtClosedGate(c, s, s.workers[w])) && a.w == w
    ensures !Enabled(c, s, a) || !Cooperative(s, a)
  {
  }

  /** Workers hold each other up nowhere but at the barrier and, in plain mode, at the write gate: whatever
      all the others are doing, a worker can take a step of its own if and only if it has neither ended nor
      waits at the current barrier nor comes with its first write to a gate that is held. */
  lemma HeldUpIff(c: Config, ss: seq<State>, acts: seq<Action>, w: nat)
    requires IsRun(c, ss, acts) && w < c.conns && Alive(c, ss[|acts|])
    ensures var s := ss[|acts|];
            && |s.workers| == c.conns
            && ((exists a :: Enabled(c, s, a) && Cooperative(s, a) && a.w == w)
                <==> !Parked(s, s.workers[w]) && !AtClosedGate(c, s, s.workers[w]))
  {
    var s := ss[|acts|];
    RunInv(c, ss, acts, |acts|);
    RunBarrier(c, ss, acts, |acts|);
    if !Parked(s, s.workers[w]) && !AtClosedGate(c, s, s.workers[w]) {
      var a := OwnStep(c, s, w);
    } else if a :| Enabled(c, s, a) && Cooperative(s, a) && a.w == w {
      HeldUp(c, s, w, a);
    }
  }

  /** What the engine may answer, whatever has been committed meanwhile. In concurrent mode a statement is
      served by any version since the transaction began, in plain mode by the current one; every statement
      can be refused and fail. */
  lemma StatementAnswers(c: Config, s: State, w: nat, e: nat)
    requires Alive(c, s) && w < |s.workers| && |s.db.versions| > 0 && InBody(s.workers[w].pc)
    ensures var x := s.workers[w];
            var serves := e < |s.db.versions| && (if c.concurrent then x.txn.begin <= e else e + 1 == |s.db.versions|);
            && (x.pc.AtUpdate? ==> (Enabled(c, s, Update(w, e)) <==> serves && (c.concurrent || s.gate == Free)))
            && (x.pc.AtAppend? ==> (Enabled(c, s, Append(w, e)) <==> serves))
            && (x.pc.AtRead? ==> (Enabled(c, s, Read(w, e)) <==> serves))
            && Enabled(c, s, Refuse(w)) && Enabled(c, s, Fail(w))
  {
  }

  /** COMMIT can conflict and fail, and succeeds in concurrent mode exactly when no row that the transaction
      writes was committed since it began. */
  lemma CommitAnswers(c: Config, s: State, w: nat)
    requires Alive(c, s) && w < |s.workers| && |s.db.versions| > 0 && s.workers[w].pc.AtCommit?
    ensures var t := s.workers[w].txn;
            && Enabled(c, s, Conflict(w)) && Enabled(c, s, Fail(w))
            && (Enabled(c, s, CommitOk(w)) <==>
                c.concurrent ==> forall k :: k in t.writes && k in s.db.stamps ==> s.db.stamps[k] <= t.begin)
  {
  }

  /** The run cannot go on unless the engine refuses or fails something. */
  ghost predicate Stuck(c: Config, s: State) {
    forall a :: Enabled(c, s, a) ==> !Cooperative(s, a)
  }

  ghost predicate AllParked(s: State) {
    forall w :: 0 <= w < |s.workers| ==> Parked(s, s.workers[w])
  }

  lemma ParkedHasNoStep(c: Config, s: State, a: Action)
    requires AllParked(s)
    ensures !Enabled(c, s, a)
  {
  }

  /** A run stops exactly where a panic has aborted the process, or where every worker has finished,
      has panicked or waits for the barrier of the current round - and then no step of any kind is left. */
  lemma StuckIff(c: Config, s: State)
    requires Inv(c, s) && BarrierOk(c, s) && HolderOk(s)
    ensures Stuck(c, s) <==> !Alive(c, s) || AllParked(s)
    ensures Stuck(c, s) ==> forall a :: !Enabled(c, s, a)
  {
    if AllParked(s) {
      forall a ensures !Enabled(c, s, a) { ParkedHasNoStep(c, s, a); }
    } else if Alive(c, s) {
      var w :| 0 <= w < |s.workers| && !Parked(s, s.workers[w]);
      var a := ActiveHasStep(c, s, w);
    }
  }

  // ----- how a run ends

  /** Parked workers without a panic among them have all finished: the barrier never keeps them all. */
  lemma ParkedFinished(c: Config, s: State)
    requires BarrierOk(c, s) && AllParked(s) && NoPanic(s)
    ensures forall w :: 0 <= w < |s.workers| ==> s.workers[w].pc.Finished? && s.workers[w].round == c.rounds
  {
    CountWaitingFull(s.workers, s.generation);
    if |s.workers| > 0 {
      var v :| 0 <= v < |s.workers| && s.workers[v].pc != Waiting(s.generation);
      assert WorkerOk(c, s.generation, s.workers[v]);
      forall w | 0 <= w < |s.workers| ensures s.workers[w].pc.Finished? && s.workers[w].round == c.rounds {
        assert WorkerOk(c, s.generation, s.workers[w]);
      }
    }
  }

  /** A worker that panicked in round r keeps every other worker from going past round r. */
  lemma PanicHolds(c: Config, ss: seq<State>, acts: seq<Action>, i: nat, p: nat, w: nat)
    requires IsRun(c, ss, acts) && i < |ss| && p < c.conns && w < c.conns
    ensures |ss[i].workers| == c.conns
    ensures ss[i].workers[p].pc.Panicked? ==>
              !ss[i].workers[w].pc.Finished? && ss[i].workers[w].round <= ss[i].workers[p].round < c.rounds
  {
    RunBarrier(c, ss, acts, i);
    assert WorkerOk(c, ss[i].generation, ss[i].workers[p]) && WorkerOk(c, ss[i].generation, ss[i].workers[w]);
  }

  /** The main thread joins the workers in order: a panicked one stops it with a panic, one that
      never ends keeps it for ever. */
  datatype Join = AllJoined | PanicsAt(w: nat) | KeptAt(w: nat)

  function JoinFrom(ws: seq<Worker>, k: nat): Join
    requires k <= |ws|
    decreases |ws| - k
  {
    if k == |ws| then AllJoined
    else if ws[k].pc.Finished? then JoinFrom(ws, k + 1)
    else if ws[k].pc.Panicked? then PanicsAt(k)
    else KeptAt(k)
  }

  lemma {:induction false} JoinsAll(ws: seq<Worker>, k: nat)
    requires k <= |ws| && forall w :: k <= w < |ws| ==> ws[w].pc.Finished?
    ensures JoinFrom(ws, k) == AllJoined
    decreases |ws| - k
  {
    if k == |ws| {
    } else {
      JoinsAll(ws, k + 1);
    }
  }

  /** The first panic was the last step: one worker has panicked, the one that stepped. */
  ghost predicate EndedByPanic(ss: seq<State>, acts: seq<Action>)
    requires |ss| == |acts| + 1
  {
    && |acts| > 0 && NoPanic(ss[|acts| - 1])
    && forall w :: 0 <= w < |ss[|acts|].workers| ==> (ss[|acts|].workers[w].pc.Panicked? <==> w == acts[|acts| - 1].w)
  }

  lemma AbortIsFirst(c: Config, ss: seq<State>, acts: seq<Action>)
    requires IsRun(c, ss, acts) && !Alive(c, ss[|acts|])
    ensures EndedByPanic(ss, acts)
  {
    if |acts| > 0 {
      assert Enabled(c, ss[|acts| - 1], acts[|acts| - 1]);
      OnlyOneChanges(c, ss[|acts| - 1], acts[|acts| - 1]);
    }
  }

  lemma OnlyOneChanges(c: Config, s: State, a: Action)
    requires Enabled(c, s, a) && NoPanic(s)
    ensures forall w :: 0 <= w < |s.workers| && Step(c, s, a).workers[w].pc.Panicked? ==> w == a.w
  {
  }

  /** The end of a burst in a state where some worker has panicked and panics unwind. */
  ghost predicate Held(s: State) {
    && |s.workers| > 0
    && (forall w :: 0 <= w < |s.workers| ==> s.workers[w].pc.Panicked? || s.workers[w].pc == Waiting(s.generation))
    && JoinFrom(s.workers, 0) == if s.workers[0].pc.Panicked? then PanicsAt(0) else KeptAt(0)
  }

  lemma PanicEnds(c: Config, ss: seq<State>, acts: seq<Action>)
    requires IsRun(c, ss, acts) && AllParked(ss[|acts|]) && !NoPanic(ss[|acts|])
    ensures Held(ss[|acts|])
  {
    var s := ss[|acts|];
    RunBarrier(c, ss, acts, |acts|);
    var p :| 0 <= p < |s.workers| && s.workers[p].pc.Panicked?;
    forall w | 0 <= w < |s.workers| ensures !s.workers[w].pc.Finished? {
      PanicHolds(c, ss, acts, |acts|, p, w);
    }
  }

  /** How a burst ends, whatever failed in it. Without a panic every worker is through all its
      rounds. Where panics abort, the process ends with the first one. Where they unwind, nobody finishes
      after a panic: each worker has panicked or waits for ever at the barrier of the same round, and the
      main thread panics if the first worker did and hangs otherwise. The integrity equations hold in
      each case. */
  lemma BurstEnds(c: Config, ss: seq<State>, acts: seq<Action>)
    requires IsRun(c, ss, acts) && Stuck(c, ss[|acts|])
    ensures var s := ss[|acts|];
            && |s.workers| == c.conns && |s.db.versions| > 0
            && (if NoPanic(s)
                then
                  && (forall w :: 0 <= w < c.conns ==> s.workers[w].pc.Finished? && s.workers[w].round == c.rounds)
                  && JoinFrom(s.workers, 0) == AllJoined
                else if c.unwinds then Held(s)
                  else EndedByPanic(ss, acts))
            && CountHistory(Latest(s.db)) == Commits(s.workers)
            && SumBalance(Latest(s.db)) == 10_000 * c.scale - SumDelta(Latest(s.db))
  {
    var n := |acts|;
    var s := ss[n];
    RunInv(c, ss, acts, n);
    RunBarrier(c, ss, acts, n);
    RunHolder(c, ss, acts, n);
    StuckIff(c, s);
    BurstIntegrity(c, ss, acts, n);
    if NoPanic(s) {
      ParkedFinished(c, s);
      JoinsAll(s.workers, 0);
    } else if c.unwinds {
      PanicEnds(c, ss, acts);
    } else {
      AbortIsFirst(c, ss, acts);
    }
  }

  lemma RunOn(c: Config, ss: seq<State>, acts: seq<Action>, a: Action)
    requires IsRun(c, ss, acts) && Enabled(c, ss[|acts|], a)
    ensures IsRun(c, ss + [Step(c, ss[|acts|], a)], acts + [a])
  {
    var ss', acts' := ss + [Step(c, ss[|acts|], a)], acts + [a];
    forall i | 0 <= i < |acts'| ensures Enabled(c, ss'[i], acts'[i]) && ss'[i + 1] == Step(c, ss'[i], acts'[i]) {
      assert ss'[i] == ss[i];
      if i < |acts| {
        assert ss'[i + 1] == ss[i + 1] && acts'[i] == acts[i];
      }
    }
  }

  ghost predicate Untroubled(acts: seq<Action>, n: nat) {
    forall i :: n <= i < |acts| ==> !acts[i].Fail? && !acts[i].Refuse?
  }

  /** Every run can be led to such an end, with no refusal and no failure of the engine on the way. */
  lemma {:induction false} EveryRunCanEnd(c: Config, ss: seq<State>, acts: seq<Action>)
    returns (ss': seq<State>, acts': seq<Action>)
    requires IsRun(c, ss, acts)
    ensures IsRun(c, ss', acts') && Stuck(c, ss'[|acts'|])
    ensures ss <= ss' && acts <= acts' && Untroubled(acts', |acts|)
    decreases TotalRank(c, ss[|acts|].workers) + 1
  {
    var s := ss[|acts|];
    if Stuck(c, s) {
      ss', acts' := ss, acts;
    } else {
      var a :| Enabled(c, s, a) && Cooperative(s, a);
      RunOn(c, ss, acts, a);
      RankLeft(c, ss, acts, a);
      ss', acts' := EveryRunCanEnd(c, ss + [Step(c, s, a)], acts + [a]);
      assert acts'[|acts|] == (acts + [a])[|acts|];
    }
  }

  lemma RankLeft(c: Config, ss: seq<State>, acts: seq<Action>, a: Action)
    requires IsRun(c, ss, acts) && Enabled(c, ss[|acts|], a)
    ensures 0 <= TotalRank(c, Step(c, ss[|acts|], a).workers) < TotalRank(c, ss[|acts|].workers)
  {
    var s := ss[|acts|];
    RunBarrier(c, ss, acts, |acts|);
    RankFalls(c, s, a);
    BarrierStep(c, s, a);
    TotalRankBound(c, Step(c, s, a).generation, Step(c, s, a).workers);
  }

  // ----- what the history holds

  /** id is the history id of round r of the worker with seed w + 1. */
  predicate IdOf(id: int, w: nat, r: nat) { id == (w + 1) * 1_000_000 + r }

  /** A payment as some worker may draw it in some round. */
  ghost predicate Drawable(c: Config, p: Payment) {
    && 0 <= p.account < c.scale && -100 <= p.delta < 100
    && exists w: nat, r: nat :: IdOf(p.id, w, r) && w < c.conns && r < c.rounds
  }

  ghost predicate Drawn(c: Config, s: State) {
    && (forall w :: 0 <= w < |s.workers| ==> -100 <= s.workers[w].delta < 100)
    && (forall i :: 0 <= i < |s.log| ==> Drawable(c, s.log[i]))
  }

  lemma CommitDrawn(c: Config, s: State, w: nat)
    requires Inv(c, s) && BarrierOk(c, s) && Drawn(c, s) && Enabled(c, s, CommitOk(w))
    ensures Drawable(c, PaymentOf(s, w))
  {
    assert TxnOk(c, s.db, w, s.workers[w]) && WorkerOk(c, s.generation, s.workers[w]);
    assert IdOf(HistoryId(w, s.workers[w].round), w, s.workers[w].round);
  }

  lemma DrawnStep(c: Config, s: State, a: Action)
    requires Inv(c, s) && BarrierOk(c, s) && Drawn(c, s) && Enabled(c, s, a)
    ensures Drawn(c, Step(c, s, a))
  {
    var s' := Step(c, s, a);
    DeltaStays(c, s, a);
    assert s'.workers == s.workers[a.w := NextWorker(c, s, a)];
    if a.CommitOk? {
      CommitDrawn(c, s, a.w);
      assert s'.log == s.log + [PaymentOf(s, a.w)];
    } else {
      assert s'.log == s.log;
    }
  }

  lemma DeltaStays(c: Config, s: State, a: Action)
    requires Enabled(c, s, a) && -100 <= s.workers[a.w].delta < 100
    ensures -100 <= NextWorker(c, s, a).delta < 100
  {
  }

  lemma {:induction false} RunDrawn(c: Config, ss: seq<State>, acts: seq<Action>, i: nat)
    requires IsRun(c, ss, acts) && i < |ss|
    ensures Drawn(c, ss[i])
  {
    if i > 0 {
      RunDrawn(c, ss, acts, i - 1);
      RunInv(c, ss, acts, i - 1);
      RunBarrier(c, ss, acts, i - 1);
      DrawnStep(c, ss[i - 1], acts[i - 1]);
    }
  }

  lemma {:induction false} HistoryOf(m: Store, log: seq<Payment>, k: Row) returns (i: nat)
    requires k.History? && k !in m && k in Serial(m, log)
    ensures i < |log| && log[i].id == k.id && Serial(m, log)[k] == Audit(log[i].account, log[i].delta)
  {
    var n := |log| - 1;
    if log[n].id == k.id {
      i := n;
    } else {
      i := HistoryOf(m, log[..n], k);
    }
  }

  /** Every history row of every state of every run is that of a committed payment: its id is
      (w + 1) * 1000000 + r for a round r of a worker w, and it holds an account and a delta from the ranges
      drawn from. */
  lemma HistoryRows(c: Config, ss: seq<State>, acts: seq<Action>, i: nat, k: Row)
    requires IsRun(c, ss, acts) && i < |ss| && k.History?
    ensures |ss[i].db.versions| > 0
    ensures k in Latest(ss[i].db) ==>
              && Latest(ss[i].db)[k].Audit?
              && Drawable(c, Payment(Latest(ss[i].db)[k].account, Latest(ss[i].db)[k].delta, k.id))
  {
    RunInv(c, ss, acts, i);
    RunDrawn(c, ss, acts, i);
    InitCells(c.scale);
    if k in Latest(ss[i].db) {
      var j := HistoryOf(InitStore(c.scale), ss[i].log, k);
      assert Drawable(c, ss[i].log[j]);
    }
  }

  // ----- when a worker panics by itself

  ghost predicate IdsDistinct(conns: nat, rounds: nat) {
    forall v: nat, q: nat, w: nat, r: nat :: v < conns && w < conns && q < rounds && r < rounds && (v, q) != (w, r) ==>
                                               HistoryId(v, q) != HistoryId(w, r)
  }

  /** The history ids of a burst are pairwise distinct exactly when there is one connection or at
      most a million rounds. */
  lemma IdsDistinctIff(conns: nat, rounds: nat)
    ensures IdsDistinct(conns, rounds) <==> conns <= 1 || rounds <= 1_000_000
  {
    if conns > 1 && rounds > 1_000_000 {
      assert HistoryId(0, 1_000_000) == HistoryId(1, 0);
    }
  }

  /** Round r of worker w has not committed yet. */
  ghost predicate Unspent(c: Config, x: Worker, r: nat) {
    r < c.rounds && (r > x.round || (r == x.round && (x.pc.AtTop? || x.pc.AtBegin? || InBody(x.pc) || x.pc.AtCommit?)))
  }

  /** No version has taken an id that one of the workers in who may still use. */
  ghost predicate FreshFor(c: Config, s: State, who: set<nat>) {
    forall w: nat, r: nat, e: nat ::
      w in who && w < |s.workers| && Unspent(c, s.workers[w], r) && e < |s.db.versions| ==>
        History(HistoryId(w, r)) !in s.db.versions[e]
  }

  ghost predicate FreshIds(c: Config, s: State) { FreshFor(c, s, Below(c.conns)) }

  /** The ids of the workers in who are pairwise distinct. */
  ghost predicate IdsApart(c: Config, who: set<nat>) {
    forall v: nat, q: nat, w: nat, r: nat ::
      v in who && w in who && v < c.conns && w < c.conns && q < c.rounds && r < c.rounds && (v, q) != (w, r) ==>
        HistoryId(v, q) != HistoryId(w, r)
  }

  /** A worker's unspent rounds only shrink, and a commit spends the current one. */
  lemma UnspentStep(c: Config, s: State, a: Action, r: nat)
    requires Enabled(c, s, a) && WorkerOk(c, s.generation, s.workers[a.w])
    requires Unspent(c, NextWorker(c, s, a), r)
    ensures Unspent(c, s.workers[a.w], r)
    ensures a.CommitOk? ==> r != s.workers[a.w].round
  {
  }

  lemma NewRowIds(c: Config, s: State, w: nat, id: int)
    requires Inv(c, s) && Enabled(c, s, CommitOk(w)) && id != HistoryId(w, s.workers[w].round)
    requires History(id) !in Latest(s.db)
    ensures History(id) !in Latest(Commit(s.db, s.workers[w].txn))
  {
    assert TxnOk(c, s.db, w, s.workers[w]);
    CommitKeepsVersions(s.db, s.workers[w].txn);
  }

  /** Ids that stay free when nothing commits. */
  lemma FreshQuiet(c: Config, s: State, a: Action, who: set<nat>)
    requires BarrierOk(c, s) && Enabled(c, s, a) && !a.CommitOk? && FreshFor(c, s, who)
    ensures FreshFor(c, Step(c, s, a), who)
  {
    var s' := Step(c, s, a);
    assert WorkerOk(c, s.generation, s.workers[a.w]);
    forall w: nat, r: nat, e: nat
      | w in who && w < |s'.workers| && Unspent(c, s'.workers[w], r) && e < |s'.db.versions|
      ensures History(HistoryId(w, r)) !in s'.db.versions[e]
    {
      if w == a.w { UnspentStep(c, s, a, r); }
      assert Unspent(c, s.workers[w], r);
    }
  }

  /** A commit takes its own id and no other. */
  lemma FreshCommit(c: Config, s: State, v: nat, who: set<nat>)
    requires Inv(c, s) && BarrierOk(c, s) && Enabled(c, s, CommitOk(v))
    requires v in who && IdsApart(c, who) && FreshFor(c, s, who)
    ensures FreshFor(c, Step(c, s, CommitOk(v)), who)
  {
    var s' := Step(c, s, CommitOk(v));
    assert WorkerOk(c, s.generation, s.workers[v]);
    forall w: nat, r: nat, e: nat
      | w in who && w < |s'.workers| && Unspent(c, s'.workers[w], r) && e < |s'.db.versions|
      ensures History(HistoryId(w, r)) !in s'.db.versions[e]
    {
      if w == v { UnspentStep(c, s, CommitOk(v), r); }
      assert Unspent(c, s.workers[w], r);
      if e == |s.db.versions| {
        assert (w, r) != (v, s.workers[v].round);
        NewRowIds(c, s, v, HistoryId(w, r));
      }
    }
  }

  /** Ids that stay free when only the workers in who commit. */
  lemma FreshStep(c: Config, s: State, a: Action, who: set<nat>)
    requires Inv(c, s) && BarrierOk(c, s) && Enabled(c, s, a) && (a.CommitOk? ==> a.w in who)
    requires IdsApart(c, who) && FreshFor(c, s, who)
    ensures FreshFor(c, Step(c, s, a), who)
  {
    if a.CommitOk? { FreshCommit(c, s, a.w, who); } else { FreshQuiet(c, s, a, who); }
  }

  /** The account debited is visible to its transaction, and the audit id is not taken. */
  lemma RowsAsExpected(c: Config, s: State, w: nat, e: nat, who: set<nat>)
    requires Inv(c, s) && BarrierOk(c, s) && FreshFor(c, s, who) && w < |s.workers| && e < |s.db.versions|
    requires s.workers[w].pc.AtAppend? || s.workers[w].pc.AtRead?
    ensures var x := s.workers[w];
            && Account(x.account) in View(s.db, x.txn, e)
            && (x.pc.AtAppend? && w in who ==> History(HistoryId(w, x.round)) !in View(s.db, x.txn, e))
  {
    var x := s.workers[w];
    assert WorkerOk(c, s.generation, x) && TxnOk(c, s.db, w, x);
    assert Unspent(c, x, x.round);
  }

  /** A step makes its worker panic only in four ways, and three of them do not happen here. */
  lemma NoPanicStep(c: Config, s: State, a: Action)
    requires Inv(c, s) && BarrierOk(c, s) && Enabled(c, s, a) && FreshIds(c, s) && !a.Fail? && c.scale > 0
    ensures !NextWorker(c, s, a).pc.Panicked?
  {
    if a.Append? || a.Read? {
      RowsAsExpected(c, s, a.w, a.e, Below(c.conns));
    }
  }

  ghost predicate NoFailure(acts: seq<Action>) {
    forall i :: 0 <= i < |acts| ==> !acts[i].Fail?
  }

  lemma FreshInit(c: Config)
    ensures FreshIds(c, Init(c)) && NoPanic(Init(c))
  {
    InitCells(c.scale);
  }

  lemma {:induction false} RunNoPanic(c: Config, ss: seq<State>, acts: seq<Action>, i: nat)
    requires IsRun(c, ss, acts) && NoFailure(acts) && i < |ss|
    requires IdsDistinct(c.conns, c.rounds) && c.scale > 0
    ensures FreshIds(c, ss[i]) && NoPanic(ss[i])
  {
    if i == 0 {
      FreshInit(c);
    } else {
      RunNoPanic(c, ss, acts, i - 1);
      NoPanicNext(c, ss, acts, i - 1);
    }
  }

  lemma NoPanicNext(c: Config, ss: seq<State>, acts: seq<Action>, i: nat)
    requires IsRun(c, ss, acts) && i < |acts| && !acts[i].Fail?
    requires IdsDistinct(c.conns, c.rounds) && c.scale > 0 && FreshIds(c, ss[i]) && NoPanic(ss[i])
    ensures FreshIds(c, ss[i + 1]) && NoPanic(ss[i + 1])
  {
    RunInv(c, ss, acts, i);
    RunBarrier(c, ss, acts, i);
    FreshStep(c, ss[i], acts[i], Below(c.conns));
    StillNoPanic(c, ss[i], acts[i]);
  }

  lemma StillNoPanic(c: Config, s: State, a: Action)
    requires Inv(c, s) && BarrierOk(c, s) && Enabled(c, s, a) && FreshIds(c, s) && NoPanic(s) && !a.Fail? && c.scale > 0
    ensures NoPanic(Step(c, s, a))
  {
    NoPanicStep(c, s, a);
  }

  /** The arguments with which no worker function panics by itself: without connections or rounds there is
      nothing to do; otherwise there must be accounts to draw from and history ids that do not collide. */
  predicate PanicFree(c: Config) {
    c.conns == 0 || c.rounds == 0 || (c.scale > 0 && (c.conns == 1 || c.rounds <= 1_000_000))
  }

  lemma {:induction false} NothingToDo(c: Config, ss: seq<State>, acts: seq<Action>, i: nat)
    requires IsRun(c, ss, acts) && i < |ss| && (c.conns == 0 || c.rounds == 0)
    ensures NoPanic(ss[i])
  {
    RunBarrier(c, ss, acts, i);
    forall w | 0 <= w < |ss[i].workers| ensures !ss[i].workers[w].pc.Panicked? {
      assert WorkerOk(c, ss[i].generation, ss[i].workers[w]);
    }
  }

  /** In a panic-free burst no state of a run without engine failures has a panic. */
  lemma PanicFreeRun(c: Config, ss: seq<State>, acts: seq<Action>, i: nat)
    requires IsRun(c, ss, acts) && NoFailure(acts) && i < |ss| && PanicFree(c)
    ensures NoPanic(ss[i])
  {
    if c.conns == 0 || c.rounds == 0 {
      NothingToDo(c, ss, acts, i);
    } else {
      IdsDistinctIff(c.conns, c.rounds);
      RunNoPanic(c, ss, acts, i);
    }
  }

  /** The whole burst when the engine never fails outright: it ends with all workers through all
      their rounds, and the integrity assertions of the benchmark hold. */
  lemma BurstCompletes(c: Config, ss: seq<State>, acts: seq<Action>)
    requires IsRun(c, ss, acts) && NoFailure(acts) && PanicFree(c)
    requires Stuck(c, ss[|acts|])
    ensures var s := ss[|acts|];
            && |s.db.versions| > 0 && |s.workers| == c.conns
            && (forall w :: 0 <= w < c.conns ==> s.workers[w].pc.Finished? && s.workers[w].round == c.rounds)
            && CountHistory(Latest(s.db)) == Commits(s.workers)
            && SumBalance(Latest(s.db)) == 10_000 * c.scale - SumDelta(Latest(s.db))
  {
    PanicFreeRun(c, ss, acts, |acts|);
    BurstEnds(c, ss, acts);
  }
}
