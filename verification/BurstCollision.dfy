/** Why the million-round limit is real: with two connections and more rounds, a burst in which the
    engine serves every statement still ends in a panic. */
module BurstCollision {
  import opened RowStore
  import opened OltpBurst
  import opened BurstProgress

  /** Some run without failures, in which no worker has finished, leads to s. */
  ghost predicate Reaches(c: Config, s: State) {
    exists ss, acts :: RunTo(c, ss, acts, s)
  }

  ghost predicate RunTo(c: Config, ss: seq<State>, acts: seq<Action>, s: State) {
    && IsRun(c, ss, acts) && NoFailure(acts) && ss[|acts|] == s
    && forall i :: 0 <= i < |acts| ==> !acts[i].Finish?
  }

  lemma ReachStep(c: Config, s: State, a: Action)
    requires Reaches(c, s) && Enabled(c, s, a) && !a.Fail? && !a.Finish?
    ensures Reaches(c, Step(c, s, a))
  {
    var ss, acts :| RunTo(c, ss, acts, s);
    var t := Step(c, s, a);
    RunOn(c, ss, acts, a);
    assert (ss + [t])[|acts + [a]|] == t;
    assert RunTo(c, ss + [t], acts + [a], t);
  }

  /** Only the end of the burst looks at the number of rounds. */
  lemma SameStep(c: Config, d: Config, s: State, a: Action)
    requires Enabled(c, s, a) && !a.Finish? && c.rounds <= d.rounds && d == c.(rounds := d.rounds)
    ensures Enabled(d, s, a) && Step(d, s, a) == Step(c, s, a)
  {
  }

  /** A run that stops short of the round limit is a run under any larger limit. */
  lemma MoreRounds(c: Config, d: Config, s: State)
    requires Reaches(c, s) && c.rounds <= d.rounds && d == c.(rounds := d.rounds)
    ensures Reaches(d, s)
  {
    var ss, acts :| RunTo(c, ss, acts, s);
    forall i | 0 <= i < |acts| ensures Enabled(d, ss[i], acts[i]) && ss[i + 1] == Step(d, ss[i], acts[i]) {
      SameStep(c, d, ss[i], acts[i]);
    }
    assert Init(d) == Init(c);
    assert RunTo(d, ss, acts, s);
  }

  ghost predicate Good(c: Config, s: State) {
    Inv(c, s) && BarrierOk(c, s) && FreshIds(c, s) && NoPanic(s)
  }

  lemma ReachGood(c: Config, s: State)
    requires Reaches(c, s) && IdsDistinct(c.conns, c.rounds) && c.scale > 0
    ensures Good(c, s)
  {
    var ss, acts :| RunTo(c, ss, acts, s);
    RunInv(c, ss, acts, |acts|);
    RunBarrier(c, ss, acts, |acts|);
    RunNoPanic(c, ss, acts, |acts|);
  }

  /** Same state, except for worker w and the store. */
  ghost predicate Elsewhere(s: State, t: State, w: nat) {
    && w < |s.workers| == |t.workers|
    && (forall v :: 0 <= v < |s.workers| && v != w ==> t.workers[v] == s.workers[v])
    && t.arrived == s.arrived && t.generation == s.generation && t.gate == s.gate
    && |s.db.versions| > 0 && |t.db.versions| > 0
    && (forall k :: k in Latest(s.db) ==> k in Latest(t.db))
  }

  /** Same barrier, and the same workers but w. */
  ghost predicate Aside(s: State, t: State, w: nat) {
    && w < |s.workers| && w < |t.workers| && t.workers == s.workers[w := t.workers[w]]
    && t.workers[w].round == s.workers[w].round
    && t.arrived == s.arrived && t.generation == s.generation
  }

  /** Worker w draws its payment and begins a transaction. */
  lemma UpToUpdate(c: Config, s: State, w: nat) returns (t: State)
    requires Reaches(c, s) && NoPanic(s) && s.gate.Free? && w < |s.workers| && s.workers[w].pc.AtTop?
    requires s.workers[w].round < c.rounds && c.scale > 0 && |s.db.versions| > 0
    ensures Reaches(c, t) && Aside(s, t, w) && t.db == s.db && t.gate == s.gate
    ensures t.workers[w].pc.AtUpdate? && t.workers[w].txn.begin == |s.db.versions| - 1
  {
    var s1 := Step(c, s, Draw(w, 0, 0));
    ReachStep(c, s, Draw(w, 0, 0));
    t := Step(c, s1, BeginTxn(w));
    ReachStep(c, s1, BeginTxn(w));
  }

  /** Worker w runs its transaction as far as the audit append, unopposed. */
  lemma UpToAppend(c: Config, s: State, w: nat) returns (t: State, e: nat)
    requires Reaches(c, s) && NoPanic(s) && s.gate.Free? && w < |s.workers| && s.workers[w].pc.AtTop?
    requires s.workers[w].round < c.rounds && c.scale > 0 && |s.db.versions| > 0
    ensures Reaches(c, t) && Aside(s, t, w) && t.db == s.db
    ensures t.workers[w].pc.AtAppend? && t.workers[w].txn.begin == e
    ensures t.gate == (if c.concurrent then Free else HeldBy(w)) && e == |s.db.versions| - 1
    ensures Enabled(c, t, Append(w, e))
  {
    var s2 := UpToUpdate(c, s, w);
    e := |s.db.versions| - 1;
    t := Step(c, s2, Update(w, e));
    ReachStep(c, s2, Update(w, e));
  }

  /** Worker w commits its payment and goes to the barrier. */
  lemma CommitTurn(c: Config, s: State, w: nat) returns (t: State)
    requires Reaches(c, s) && IdsDistinct(c.conns, c.rounds) && s.gate.Free? && w < |s.workers|
    requires s.workers[w].pc.AtTop? && s.workers[w].round < c.rounds && c.scale > 0
    ensures Reaches(c, t) && Elsewhere(s, t, w)
    ensures t.workers[w].pc.AtBarrier? && t.workers[w].round == s.workers[w].round
    ensures History(HistoryId(w, s.workers[w].round)) in Latest(t.db)
  {
    ReachGood(c, s);
    var s5 := UpToCommit(c, s, w);
    ReachGood(c, s5);
    t := CommitLast(c, s5, w);
  }

  lemma UpToCommit(c: Config, s: State, w: nat) returns (t: State)
    requires Reaches(c, s) && NoPanic(s) && IdsDistinct(c.conns, c.rounds) && s.gate.Free? && w < |s.workers|
    requires s.workers[w].pc.AtTop? && s.workers[w].round < c.rounds && c.scale > 0 && |s.db.versions| > 0
    ensures Reaches(c, t) && Aside(s, t, w) && t.db == s.db
    ensures t.gate == (if c.concurrent then Free else HeldBy(w))
    ensures t.workers[w].pc.AtCommit? && t.workers[w].txn.begin == |s.db.versions| - 1
  {
    var s3, e := UpToAppend(c, s, w);
    t := AppendAndRead(c, s3, w, e);
  }

  lemma AppendAndRead(c: Config, s: State, w: nat, e: nat) returns (t: State)
    requires Reaches(c, s) && IdsDistinct(c.conns, c.rounds) && Enabled(c, s, Append(w, e)) && e == |s.db.versions| - 1
    requires s.workers[w].txn.begin == e && c.scale > 0
    ensures Reaches(c, t) && Aside(s, t, w) && t.db == s.db && t.gate == s.gate
    ensures t.workers[w].pc.AtCommit? && t.workers[w].txn.begin == e
  {
    var s1 := Step(c, s, Append(w, e));
    ReachStep(c, s, Append(w, e));
    StillHere(c, s1, w);
    t := Step(c, s1, Read(w, e));
    ReachStep(c, s1, Read(w, e));
    StillHere(c, t, w);
  }

  lemma StillHere(c: Config, s: State, w: nat)
    requires Reaches(c, s) && IdsDistinct(c.conns, c.rounds) && c.scale > 0 && w < |s.workers|
    ensures !s.workers[w].pc.Panicked?
  {
    ReachGood(c, s);
  }

  lemma CommitLast(c: Config, s: State, w: nat) returns (t: State)
    requires Reaches(c, s) && Good(c, s) && w < |s.workers|
    requires s.workers[w].pc.AtCommit? && s.workers[w].txn.begin == |s.db.versions| - 1
    ensures Reaches(c, t) && Aside(s, t, w) && t.workers[w].pc.AtBarrier?
    ensures t.gate == Release(s, w)
    ensures |s.db.versions| > 0 && |t.db.versions| > 0
    ensures forall k :: k in Latest(s.db) ==> k in Latest(t.db)
    ensures History(HistoryId(w, s.workers[w].round)) in Latest(t.db)
  {
    assert TxnOk(c, s.db, w, s.workers[w]);
    assert Validates(s.db, s.workers[w].txn);
    t := Step(c, s, CommitOk(w));
    ReachStep(c, s, CommitOk(w));
    CommitKeepsVersions(s.db, s.workers[w].txn);
  }

  // ----- whole rounds

  /** In round g: workers below k wait at the barrier, the rest are about to start the round. */
  ghost predicate Turn(c: Config, s: State, g: nat, k: nat) {
    && |s.workers| == c.conns && k <= c.conns && s.generation == g && s.gate.Free?
    && (forall v :: 0 <= v < k ==> s.workers[v].pc == Waiting(g))
    && (forall v :: k <= v < c.conns ==> s.workers[v].pc.AtTop? && s.workers[v].round == g)
    && |s.db.versions| > 0
    && (g > 0 || k > 1 ==> History(HistoryId(1, 0)) in Latest(s.db))
  }

  /** After the barrier of round g - 1 opened: workers from k up to the last still have to wake. */
  ghost predicate Waking(c: Config, s: State, g: nat, k: nat) {
    && |s.workers| == c.conns && k < c.conns && s.generation == g && g > 0 && s.gate.Free?
    && (forall v :: 0 <= v < k ==> s.workers[v].pc.AtTop? && s.workers[v].round == g)
    && (forall v :: k <= v < c.conns - 1 ==> s.workers[v].pc == Waiting(g - 1) && s.workers[v].round == g - 1)
    && s.workers[c.conns - 1].pc.AtTop? && s.workers[c.conns - 1].round == g
    && |s.db.versions| > 0 && History(HistoryId(1, 0)) in Latest(s.db)
  }

  lemma {:induction false} RestWake(c: Config, s: State, g: nat, k: nat) returns (t: State)
    requires Reaches(c, s) && Waking(c, s, g, k)
    ensures Reaches(c, t) && Turn(c, t, g, 0)
    decreases c.conns - k
  {
    if k == c.conns - 1 {
      t := s;
    } else {
      ReachStep(c, s, Wake(k));
      t := RestWake(c, Step(c, s, Wake(k)), g, k + 1);
    }
  }

  /** In the middle of a round: workers below k wait, k is at the barrier, the rest are to start. */
  ghost predicate AtTurn(c: Config, s: State, g: nat, k: nat) {
    && |s.workers| == c.conns && k < c.conns && s.generation == g && s.gate.Free?
    && (forall v :: 0 <= v < k ==> s.workers[v].pc == Waiting(g) && s.workers[v].round == g)
    && s.workers[k].pc.AtBarrier? && s.workers[k].round == g
    && (forall v :: k < v < c.conns ==> s.workers[v].pc.AtTop? && s.workers[v].round == g)
    && |s.db.versions| > 0
    && (g > 0 || k > 0 ==> History(HistoryId(1, 0)) in Latest(s.db))
  }

  lemma CommitAtTurn(c: Config, s: State, g: nat, k: nat) returns (t: State)
    requires Reaches(c, s) && IdsDistinct(c.conns, c.rounds) && Turn(c, s, g, k)
    requires k < c.conns && g < c.rounds && c.scale > 0
    ensures Reaches(c, t) && AtTurn(c, t, g, k)
  {
    t := CommitTurn(c, s, k);
    ReachGood(c, t);
    forall v | 0 <= v < k ensures t.workers[v].pc == Waiting(g) && t.workers[v].round == g {
      assert WorkerOk(c, g, t.workers[v]);
    }
  }

  lemma NextTurn(c: Config, s: State, g: nat, k: nat) returns (t: State)
    requires Reaches(c, s) && IdsDistinct(c.conns, c.rounds) && Turn(c, s, g, k)
    requires k < c.conns && g < c.rounds && c.scale > 0 && c.conns > 1
    ensures Reaches(c, t)
    ensures if k + 1 < c.conns then Turn(c, t, g, k + 1) else Waking(c, t, g + 1, 0)
  {
    var s1 := CommitAtTurn(c, s, g, k);
    ReachGood(c, s1);
    t := ArriveAtTurn(c, s1, g, k);
  }

  lemma ArriveAtTurn(c: Config, s: State, g: nat, k: nat) returns (t: State)
    requires Reaches(c, s) && BarrierOk(c, s) && AtTurn(c, s, g, k) && c.conns > 1
    ensures Reaches(c, t)
    ensures if k + 1 < c.conns then Turn(c, t, g, k + 1) else Waking(c, t, g + 1, 0)
  {
    WaitingBelow(c, s, g, k);
    t := ArriveTurn(c, s, k);
  }

  lemma ArriveTurn(c: Config, s: State, w: nat) returns (t: State)
    requires Reaches(c, s) && Enabled(c, s, Arrive(w)) && s.gate.Free?
    ensures Reaches(c, t) && |t.workers| == |s.workers| && t.db == s.db && t.gate.Free?
    ensures forall v :: 0 <= v < |s.workers| && v != w ==> t.workers[v] == s.workers[v]
    ensures if s.arrived + 1 == c.conns
            then t.workers[w].pc.AtTop?
                 && t.workers[w].round == s.workers[w].round + 1
                 && t.generation == s.generation + 1
            else t.workers[w].pc == Waiting(s.generation) && t.generation == s.generation
  {
    t := Step(c, s, Arrive(w));
    ReachStep(c, s, Arrive(w));
  }

  /** The barrier has counted exactly the workers that wait. */
  lemma WaitingBelow(c: Config, s: State, g: nat, k: nat)
    requires BarrierOk(c, s) && s.generation == g && k < c.conns
    requires forall v :: 0 <= v < k ==> s.workers[v].pc == Waiting(g)
    requires forall v :: k <= v < c.conns ==> s.workers[v].pc != Waiting(g)
    ensures s.arrived == k
  {
    CountPrefix(s.workers, g, k);
  }

  lemma {:induction false} CountPrefix(ws: seq<Worker>, g: nat, k: nat)
    requires k <= |ws|
    requires forall v :: 0 <= v < k ==> ws[v].pc == Waiting(g)
    requires forall v :: k <= v < |ws| ==> ws[v].pc != Waiting(g)
    ensures CountWaiting(ws, g) == k
  {
    if k == |ws| {
      CountWaitingFull(ws, g);
    } else {
      var rest := ws[..|ws| - 1];
      assert forall v :: 0 <= v < |rest| ==> rest[v] == ws[v];
      CountPrefix(rest, g, k);
    }
  }

  lemma {:induction false} WholeRound(c: Config, s: State, g: nat, k: nat) returns (t: State)
    requires Reaches(c, s) && IdsDistinct(c.conns, c.rounds) && Turn(c, s, g, k)
    requires k < c.conns && g < c.rounds && c.scale > 0 && c.conns > 1
    ensures Reaches(c, t) && Turn(c, t, g + 1, 0)
    decreases c.conns - k
  {
    var s1 := NextTurn(c, s, g, k);
    if k + 1 < c.conns {
      t := WholeRound(c, s1, g, k + 1);
    } else {
      t := RestWake(c, s1, g + 1, 0);
    }
  }

  lemma {:induction false} ManyRounds(c: Config, g: nat) returns (t: State)
    requires IdsDistinct(c.conns, c.rounds) && g <= c.rounds && c.scale > 0 && c.conns > 1
    ensures Reaches(c, t) && Turn(c, t, g, 0)
  {
    if g == 0 {
      t := Init(c);
      assert RunTo(c, [t], [], t);
    } else {
      var s := ManyRounds(c, g - 1);
      t := WholeRound(c, s, g - 1, 0);
    }
  }

  /** With more than a million rounds worker 0 meets the first history id of worker 1. */
  lemma CollisionPanics(c: Config) returns (s: State)
    requires c.conns > 1 && c.rounds > 1_000_000 && c.scale > 0
    ensures Reaches(c, s) && !NoPanic(s)
  {
    var d := c.(rounds := 1_000_000);
    IdsDistinctIff(d.conns, d.rounds);
    var t := ManyRounds(d, 1_000_000);
    MoreRounds(d, c, t);
    var u, e := UpToAppend(c, t, 0);
    assert HistoryId(0, 1_000_000) == HistoryId(1, 0);
    s := TakenIdPanics(c, u, 0, e);
  }

  lemma TakenIdPanics(c: Config, s: State, w: nat, e: nat) returns (t: State)
    requires Reaches(c, s) && Enabled(c, s, Append(w, e)) && e == |s.db.versions| - 1
    requires History(HistoryId(w, s.workers[w].round)) in Latest(s.db)
    ensures Reaches(c, t) && !NoPanic(t)
  {
    assert History(HistoryId(w, s.workers[w].round)) in View(s.db, s.workers[w].txn, e);
    t := Step(c, s, Append(w, e));
    ReachStep(c, s, Append(w, e));
    assert t.workers[w].pc.Panicked?;
  }

  /** Given no accounts, the worker function panics at its first draw. */
  lemma NoAccounts(c: Config) returns (s: State)
    requires c.conns > 0 && c.rounds > 0 && c.scale == 0
    ensures Reaches(c, s) && !NoPanic(s)
  {
    var t := Init(c);
    assert RunTo(c, [t], [], t);
    s := Step(c, t, Draw(0, 0, 0));
    ReachStep(c, t, Draw(0, 0, 0));
    assert s.workers[0].pc.Panicked?;
  }

  /** Whether worker functions can panic without the engine failing: exactly when there are connections and
      rounds and either no accounts, or several connections and more than a million rounds. */
  lemma PanicIff(c: Config)
    ensures (forall s :: Reaches(c, s) ==> NoPanic(s)) <==> PanicFree(c)
  {
    if PanicFree(c) {
      forall s | Reaches(c, s) ensures NoPanic(s) {
        var ss, acts :| RunTo(c, ss, acts, s);
        PanicFreeRun(c, ss, acts, |acts|);
      }
    } else if c.scale == 0 {
      var s := NoAccounts(c);
    } else {
      var s := CollisionPanics(c);
    }
  }
}
