/** Exactly when a burst can end with the main thread kept for ever in its first join. */
module BurstHang {
  import opened OltpBurst
  import opened BurstProgress
  import opened BurstCollision

  /** The run has ended, the process is still there, and the main thread waits for a worker that never ends. */
  ghost predicate HangsAtEnd(c: Config, ss: seq<State>, acts: seq<Action>) {
    && IsRun(c, ss, acts) && Stuck(c, ss[|acts|]) && Alive(c, ss[|acts|])
    && JoinFrom(ss[|acts|].workers, 0).KeptAt?
  }

  ghost predicate CanHang(c: Config) { exists ss, acts :: HangsAtEnd(c, ss, acts) }

  // ----- a run that hangs

  /** Worker 0 waits at the first barrier, which worker 1 will never reach. */
  ghost predicate Abandoned(s: State) {
    && |s.workers| >= 2 && s.generation == 0
    && s.workers[0].pc == Waiting(0) && s.workers[1].pc.Panicked?
  }

  lemma AbandonedStep(c: Config, s: State, a: Action)
    requires BarrierOk(c, s) && Abandoned(s) && Enabled(c, s, a)
    ensures Abandoned(Step(c, s, a))
  {
    if Opens(c, s, a) {
      LastArrival(c, s, a.w);
    }
  }

  lemma {:induction false} StaysAbandoned(c: Config, ss: seq<State>, acts: seq<Action>, i: nat, j: nat)
    requires IsRun(c, ss, acts) && i <= j < |ss| && Abandoned(ss[i])
    ensures Abandoned(ss[j])
    decreases j - i
  {
    if i == j {
    } else {
      StaysAbandoned(c, ss, acts, i, j - 1);
      AbandonedNext(c, ss, acts, j - 1);
    }
  }

  lemma AbandonedNext(c: Config, ss: seq<State>, acts: seq<Action>, j: nat)
    requires IsRun(c, ss, acts) && j < |acts| && Abandoned(ss[j])
    ensures Abandoned(ss[j + 1])
  {
    RunBarrier(c, ss, acts, j);
    AbandonedStep(c, ss[j], acts[j]);
  }

  /** A first round of which worker 0 has done its part. */
  lemma OneWaits(c: Config) returns (s: State)
    requires c.conns >= 2 && c.rounds >= 1 && c.scale >= 1
    ensures Reaches(c, s) && Turn(c, s, 0, 1)
  {
    var d := c.(rounds := 1);
    IdsDistinctIff(d.conns, d.rounds);
    assert RunTo(d, [Init(d)], [], Init(d));
    s := NextTurn(d, Init(d), 0, 0);
    MoreRounds(d, c, s);
  }

  /** In that state worker 1 draws, and then its first statement fails. */
  lemma WorkerFails(c: Config, s: State) returns (t: State)
    requires Turn(c, s, 0, 1) && c.unwinds && c.conns >= 2 && c.rounds >= 1 && c.scale >= 1
    ensures Enabled(c, s, Draw(1, 0, 0)) && Enabled(c, Step(c, s, Draw(1, 0, 0)), Fail(1))
    ensures t == Step(c, Step(c, s, Draw(1, 0, 0)), Fail(1)) && Abandoned(t)
  {
    t := Step(c, Step(c, s, Draw(1, 0, 0)), Fail(1));
  }

  lemma SomeRunIsAbandoned(c: Config) returns (ss: seq<State>, acts: seq<Action>)
    requires c.unwinds && c.conns >= 2 && c.rounds >= 1 && c.scale >= 1
    ensures IsRun(c, ss, acts) && Abandoned(ss[|acts|])
  {
    var s := OneWaits(c);
    var ss0, acts0 :| RunTo(c, ss0, acts0, s);
    var t := WorkerFails(c, s);
    var d, f := Draw(1, 0, 0), Fail(1);
    RunOn(c, ss0, acts0, d);
    var ss1, acts1 := ss0 + [Step(c, s, d)], acts0 + [d];
    assert ss1[|acts1|] == Step(c, s, d);
    RunOn(c, ss1, acts1, f);
    ss, acts := ss1 + [t], acts1 + [f];
    assert ss[|acts|] == t;
  }

  lemma HangIsReachable(c: Config)
    requires c.unwinds && c.conns >= 2 && c.rounds >= 1 && c.scale >= 1
    ensures CanHang(c)
  {
    var ss, acts := SomeRunIsAbandoned(c);
    var ss', acts' := EveryRunCanEnd(c, ss, acts);
    assert ss'[|acts|] == ss[|acts|];
    StaysAbandoned(c, ss', acts', |acts|, |acts'|);
    assert HangsAtEnd(c, ss', acts');
  }

  // ----- no other burst hangs

  ghost predicate NothingDrawn(s: State) {
    forall w :: 0 <= w < |s.workers| ==>
                  var pc := s.workers[w].pc; pc.AtTop? || pc.Finished? || pc.Panicked?
  }

  lemma {:induction false} NoneDrawn(c: Config, ss: seq<State>, acts: seq<Action>, i: nat)
    requires IsRun(c, ss, acts) && i < |ss| && c.scale == 0
    ensures NothingDrawn(ss[i])
  {
    if i == 0 {
    } else {
      NoneDrawn(c, ss, acts, i - 1);
      NoneDrawnStep(c, ss[i - 1], acts[i - 1]);
    }
  }

  lemma NoneDrawnStep(c: Config, s: State, a: Action)
    requires NothingDrawn(s) && Enabled(c, s, a) && c.scale == 0
    ensures NothingDrawn(Step(c, s, a))
  {
  }

  lemma HangNeeds(c: Config, ss: seq<State>, acts: seq<Action>)
    requires HangsAtEnd(c, ss, acts)
    ensures c.unwinds && c.conns >= 2 && c.rounds >= 1 && c.scale >= 1
  {
    var s := ss[|acts|];
    BurstEnds(c, ss, acts);
    var p :| 0 <= p < |s.workers| && s.workers[p].pc.Panicked?;
    PanicHolds(c, ss, acts, |acts|, p, 0);
    if c.scale == 0 {
      NoneDrawn(c, ss, acts, |acts|);
    }
  }

  /** A burst can hang exactly when panics unwind, there are at least two connections, and there is work
      to do: a round and an account. */
  lemma CanHangIff(c: Config)
    ensures CanHang(c) <==> c.unwinds && c.conns >= 2 && c.rounds >= 1 && c.scale >= 1
  {
    if CanHang(c) {
      var ss, acts :| HangsAtEnd(c, ss, acts);
      HangNeeds(c, ss, acts);
    }
    if c.unwinds && c.conns >= 2 && c.rounds >= 1 && c.scale >= 1 {
      HangIsReachable(c);
    }
  }
}
