/** The runs of the burst hold everything its clients can do: for all draws and all replies of the engine
    there is an interleaved run in which a worker sends the word of its loop, or any beginning of it. */
module BurstRuns {
  import opened Finite
  import opened RowStore
  import opened OltpBurst
  import opened BurstProgress
  import W = WorkerLoop
  import BC = BurstCollision

  type Word = seq<W.Event>

  // ----- runs with what every worker has sent

  ghost predicate RunTo(c: Config, ss: seq<State>, acts: seq<Action>, s: State, sent: seq<Word>) {
    && IsRun(c, ss, acts) && ss[|acts|] == s && |sent| == c.conns
    && forall w: nat :: w < c.conns ==> W.SentBy(c, ss, acts, w, |acts|) == sent[w]
  }

  ghost predicate Arrives(c: Config, s: State, sent: seq<Word>) { exists ss, acts :: RunTo(c, ss, acts, s, sent) }

  lemma {:induction false} SentBefore(c: Config, ss: seq<State>, acts: seq<Action>, a: Action, w: nat, i: nat)
    requires IsRun(c, ss, acts) && Enabled(c, ss[|acts|], a) && i <= |acts|
    ensures IsRun(c, ss + [Step(c, ss[|acts|], a)], acts + [a])
    ensures W.SentBy(c, ss + [Step(c, ss[|acts|], a)], acts + [a], w, i) == W.SentBy(c, ss, acts, w, i)
  {
    RunOn(c, ss, acts, a);
    if i > 0 {
      SentBefore(c, ss, acts, a, w, i - 1);
    }
  }

  lemma SentNow(c: Config, ss: seq<State>, acts: seq<Action>, a: Action, w: nat)
    requires IsRun(c, ss, acts) && Enabled(c, ss[|acts|], a)
    ensures var s := ss[|acts|];
            && IsRun(c, ss + [Step(c, s, a)], acts + [a])
            && W.SentBy(c, ss + [Step(c, s, a)], acts + [a], w, |acts| + 1)
               == W.SentBy(c, ss, acts, w, |acts|) + if a.w == w then W.Sends(c, s, a) else []
  {
    SentBefore(c, ss, acts, a, w, |acts|);
  }

  lemma ArriveStep(c: Config, s: State, sent: seq<Word>, a: Action)
    requires Arrives(c, s, sent) && Enabled(c, s, a) && a.w < |sent|
    ensures Arrives(c, Step(c, s, a), sent[a.w := sent[a.w] + W.Sends(c, s, a)])
  {
    var ss, acts :| RunTo(c, ss, acts, s, sent);
    RunToNext(c, ss, acts, s, sent, a);
    RunArrives(c, ss + [Step(c, s, a)], acts + [a], Step(c, s, a), sent[a.w := sent[a.w] + W.Sends(c, s, a)]);
  }

  lemma RunArrives(c: Config, ss: seq<State>, acts: seq<Action>, s: State, sent: seq<Word>)
    requires RunTo(c, ss, acts, s, sent)
    ensures Arrives(c, s, sent)
  {
  }

  lemma RunToNext(c: Config, ss: seq<State>, acts: seq<Action>, s: State, sent: seq<Word>, a: Action)
    requires RunTo(c, ss, acts, s, sent) && Enabled(c, s, a) && a.w < |sent|
    ensures RunTo(c, ss + [Step(c, s, a)], acts + [a], Step(c, s, a), sent[a.w := sent[a.w] + W.Sends(c, s, a)])
  {
    var t, sent' := Step(c, s, a), sent[a.w := sent[a.w] + W.Sends(c, s, a)];
    RunOn(c, ss, acts, a);
    forall w: nat | w < c.conns ensures W.SentBy(c, ss + [t], acts + [a], w, |acts| + 1) == sent'[w] {
      SentNow(c, ss, acts, a, w);
    }
  }

  function Nothing(c: Config): seq<Word> { seq(c.conns, _ => []) }

  lemma ArriveFirst(c: Config)
    ensures Arrives(c, Init(c), Nothing(c))
  {
    assert RunTo(c, [Init(c)], [], Init(c), Nothing(c));
  }

  lemma ArriveInv(c: Config, s: State, sent: seq<Word>)
    requires Arrives(c, s, sent)
    ensures Inv(c, s) && BarrierOk(c, s) && |sent| == c.conns
  {
    var ss, acts :| RunTo(c, ss, acts, s, sent);
    RunInv(c, ss, acts, |acts|);
    RunBarrier(c, ss, acts, |acts|);
  }

  // ----- one worker on its own

  /** Worker w can go on alone: it is not at the barrier, and nobody else holds the gate or has committed
      since it began. */
  ghost predicate Solo(c: Config, s: State, w: nat) {
    && w < |s.workers| == c.conns && NoPanic(s) && |s.db.versions| > 0
    && var x := s.workers[w];
    && !x.pc.Waiting?
    && s.gate == (if !c.concurrent && HasWritten(x.pc) then HeldBy(w) else Free)
    && (InBody(x.pc) || x.pc.AtCommit? ==> x.txn.begin == |s.db.versions| - 1)
  }

  /** The step that sends e: statements are served by the current version. */
  function ActionFor(s: State, w: nat, e: W.Event): Action
    requires w < |s.workers| && |s.db.versions| > 0
  {
    var now := |s.db.versions| - 1;
    match e
    case Drawn(account, delta) => Draw(w, account, delta)
    case Begun => BeginTxn(w)
    case Updated(_, _) => Update(w, now)
    case Inserted(_, _, _) => Append(w, now)
    case Selected(_) => Read(w, now)
    case Refused => Refuse(w)
    case Failed => if s.workers[w].pc.AtTop? then Draw(w, 0, 0) else Fail(w)
    case Committed => CommitOk(w)
    case Conflicted => Conflict(w)
    case GaveUp => GiveUp(w)
    case Waited => Arrive(w)
    case Closed => Finish(w)
  }

  /** What a worker outside who may not send. */
  predicate Quiet(e: W.Event) { !e.Inserted? && !e.Committed? }

  lemma UpdateEnabled(c: Config, s: State, w: nat)
    requires Inv(c, s) && Solo(c, s, w) && s.workers[w].pc.AtUpdate?
    ensures var a := Update(w, |s.db.versions| - 1);
            var x := s.workers[w];
            Enabled(c, s, a) && W.Sends(c, s, a) == [W.Updated(x.account, x.delta)]
  {
  }

  lemma AppendEnabled(c: Config, s: State, w: nat, who: set<nat>)
    requires Inv(c, s) && BarrierOk(c, s) && FreshFor(c, s, who) && Solo(c, s, w) && w in who
    requires s.workers[w].pc.AtAppend?
    ensures var a := Append(w, |s.db.versions| - 1);
            var x := s.workers[w];
            Enabled(c, s, a) && W.Sends(c, s, a) == [W.Inserted(HistoryId(w, x.round), x.account, x.delta)]
  {
    RowsAsExpected(c, s, w, |s.db.versions| - 1, who);
  }

  lemma ReadEnabled(c: Config, s: State, w: nat, who: set<nat>)
    requires Inv(c, s) && BarrierOk(c, s) && FreshFor(c, s, who) && Solo(c, s, w) && s.workers[w].pc.AtRead?
    ensures var a := Read(w, |s.db.versions| - 1);
            Enabled(c, s, a) && W.Sends(c, s, a) == [W.Selected(s.workers[w].account)]
  {
    RowsAsExpected(c, s, w, |s.db.versions| - 1, who);
  }

  /** Nothing was committed since the transaction began, so it validates. */
  lemma CommitEnabled(c: Config, s: State, w: nat)
    requires Inv(c, s) && Solo(c, s, w) && s.workers[w].pc.AtCommit?
    ensures Enabled(c, s, CommitOk(w)) && W.Sends(c, s, CommitOk(w)) == [W.Committed]
  {
    assert Validates(s.db, s.workers[w].txn);
  }

  lemma OtherEnabled(c: Config, s: State, w: nat, e: W.Event)
    requires Solo(c, s, w) && W.Accepts(W.SettingOf(c, w), W.ControlOf(s.workers[w]), e)
    requires !e.Updated? && !e.Inserted? && !e.Selected? && !e.Committed?
    ensures Enabled(c, s, ActionFor(s, w, e)) && W.Sends(c, s, ActionFor(s, w, e)) == [e]
  {
  }

  lemma EventEnabled(c: Config, s: State, w: nat, e: W.Event, who: set<nat>)
    requires Inv(c, s) && BarrierOk(c, s) && FreshFor(c, s, who) && Solo(c, s, w) && (w in who || Quiet(e))
    requires W.Accepts(W.SettingOf(c, w), W.ControlOf(s.workers[w]), e)
    ensures Enabled(c, s, ActionFor(s, w, e)) && W.Sends(c, s, ActionFor(s, w, e)) == [e]
  {
    match e
    case Updated(_, _) => UpdateEnabled(c, s, w);
    case Inserted(_, _, _) => AppendEnabled(c, s, w, who);
    case Selected(_) => ReadEnabled(c, s, w, who);
    case Committed => CommitEnabled(c, s, w);
    case _ => OtherEnabled(c, s, w, e);
  }

  /** Worker w has moved, and nobody else. */
  ghost predicate Beside(s: State, t: State, w: nat) {
    && w < |s.workers| == |t.workers|
    && (forall v :: 0 <= v < |s.workers| && v != w ==> t.workers[v] == s.workers[v])
    && t.arrived == s.arrived && t.generation == s.generation
  }

  lemma SoloStays(c: Config, s: State, w: nat, e: W.Event)
    requires Solo(c, s, w) && Enabled(c, s, ActionFor(s, w, e)) && !e.Waited?
    requires W.Sends(c, s, ActionFor(s, w, e)) == [e]
    ensures var t := Step(c, s, ActionFor(s, w, e));
            Beside(s, t, w) && !t.workers[w].pc.Waiting? && (!e.Failed? ==> Solo(c, t, w))
  {
  }

  lemma SoloStep(c: Config, s: State, w: nat, e: W.Event)
    requires Solo(c, s, w) && W.Accepts(W.SettingOf(c, w), W.ControlOf(s.workers[w]), e)
    requires Enabled(c, s, ActionFor(s, w, e)) && W.Sends(c, s, ActionFor(s, w, e)) == [e]
    ensures W.ControlOf(Step(c, s, ActionFor(s, w, e)).workers[w]) == W.Next(W.ControlOf(s.workers[w]), e)
  {
    W.StepSends(c, s, ActionFor(s, w, e));
    assert [e][1..] == [];
  }

  // ----- a word of one worker

  lemma {:induction false} RoundsGrow(d: W.Setting, x: W.Control, t: Word, y: W.Control)
    requires W.Leads(d, x, t, y)
    ensures x.round <= y.round
    decreases |t|
  {
    if t != [] {
      RoundsGrow(d, W.Next(x, t[0]), t[1..], y);
    }
  }

  ghost predicate AllQuiet(t: Word) { forall i :: 0 <= i < |t| ==> Quiet(t[i]) }

  /** The state that is reached, with the ids of the workers in who still free. */
  ghost predicate At(c: Config, s: State, sent: seq<Word>, who: set<nat>) {
    Arrives(c, s, sent) && FreshFor(c, s, who)
  }

  lemma OneEvent(c: Config, s: State, sent: seq<Word>, w: nat, e: W.Event, who: set<nat>) returns (t: State)
    requires At(c, s, sent, who) && IdsApart(c, who) && Solo(c, s, w) && (w in who || Quiet(e))
    requires W.Accepts(W.SettingOf(c, w), W.ControlOf(s.workers[w]), e) && !e.Waited?
    ensures w < |sent| && At(c, t, sent[w := sent[w] + [e]], who)
    ensures Beside(s, t, w) && !t.workers[w].pc.Waiting? && (!e.Failed? ==> Solo(c, t, w))
    ensures W.ControlOf(t.workers[w]) == W.Next(W.ControlOf(s.workers[w]), e)
  {
    ArriveInv(c, s, sent);
    EventEnabled(c, s, w, e, who);
    ArriveStep(c, s, sent, ActionFor(s, w, e));
    FreshStep(c, s, ActionFor(s, w, e), who);
    SoloStays(c, s, w, e);
    SoloStep(c, s, w, e);
    t := Step(c, s, ActionFor(s, w, e));
  }

  lemma PutNothing(sent: seq<Word>, w: nat)
    requires w < |sent|
    ensures sent[w := sent[w] + []] == sent
  {
    assert sent[w] + [] == sent[w];
  }

  lemma PutTwice(sent: seq<Word>, w: nat, a: Word, b: Word)
    requires w < |sent|
    ensures sent[w := sent[w] + a][w := sent[w := sent[w] + a][w] + b] == sent[w := sent[w] + (a + b)]
  {
    assert (sent[w] + a) + b == sent[w] + (a + b);
  }

  lemma BesideTwice(s: State, t: State, u: State, w: nat)
    requires Beside(s, t, w) && Beside(t, u, w)
    ensures Beside(s, u, w)
  {
  }

  lemma FirstEvent(d: W.Setting, x: W.Control, t: Word, y: W.Control)
    requires t != [] && W.Leads(d, x, t, y) && y.round == x.round
    ensures W.Accepts(d, x, t[0]) && W.Leads(d, W.Next(x, t[0]), t[1..], y) && !t[0].Waited?
    ensures y.round == W.Next(x, t[0]).round && t == [t[0]] + t[1..]
    ensures t[0].Failed? ==> t == [t[0]]
  {
    RoundsGrow(d, W.Next(x, t[0]), t[1..], y);
    if t[0].Failed? { W.Over(d, W.Next(x, t[0]), t[1..], y); }
  }

  /** Worker w alone sends a word that stays inside its round. */
  lemma {:induction false} SoloWord(c: Config, s: State, sent: seq<Word>, w: nat, t: Word, y: W.Control, who: set<nat>)
    returns (s': State)
    requires At(c, s, sent, who) && IdsApart(c, who) && Solo(c, s, w) && (w in who || AllQuiet(t))
    requires W.Leads(W.SettingOf(c, w), W.ControlOf(s.workers[w]), t, y) && y.round == s.workers[w].round
    ensures w < |sent| && At(c, s', sent[w := sent[w] + t], who)
    ensures Beside(s, s', w) && !s'.workers[w].pc.Waiting? && W.ControlOf(s'.workers[w]) == y
    ensures !y.pc.Panicked? ==> Solo(c, s', w)
    decreases |t|
  {
    ArriveInv(c, s, sent);
    if t == [] {
      s' := s;
      PutNothing(sent, w);
    } else {
      var d, x := W.SettingOf(c, w), W.ControlOf(s.workers[w]);
      FirstEvent(d, x, t, y);
      var s1 := OneEvent(c, s, sent, w, t[0], who);
      if t[0].Failed? {
        s' := s1;
      } else {
        s' := SoloWord(c, s1, sent[w := sent[w] + [t[0]]], w, t[1..], y, who);
        PutTwice(sent, w, [t[0]], t[1..]);
        BesideTwice(s, s1, s', w);
      }
    }
  }

  // ----- whole rounds, one worker after the other

  /** The words of the first g rounds, with the barrier wait at the end of each. */
  function RoundsWord(d: W.Setting, plans: seq<W.Plan>, g: nat): Word
    requires g <= |plans|
  {
    if g == 0 then [] else RoundsWord(d, plans, g - 1) + (W.RoundWord(d, g - 1, plans[g - 1]) + [W.Waited])
  }

  /** In round g: workers below k wait at the barrier, the rest are about to start the round. */
  ghost predicate Turn(c: Config, s: State, g: nat, k: nat) {
    && |s.workers| == c.conns && k <= c.conns && s.generation == g && s.gate.Free? && |s.db.versions| > 0
    && (forall v :: 0 <= v < k ==> s.workers[v].pc == Waiting(g))
    && (forall v :: k <= v < c.conns ==> s.workers[v].pc.AtTop? && s.workers[v].round == g)
  }

  /** The barrier before round g has opened, and the workers from k up to the last still have to wake. */
  ghost predicate Waking(c: Config, s: State, g: nat, k: nat) {
    && |s.workers| == c.conns && k < c.conns && s.generation == g && g > 0 && s.gate.Free? && |s.db.versions| > 0
    && (forall v :: 0 <= v < k ==> s.workers[v].pc.AtTop? && s.workers[v].round == g)
    && (forall v :: k <= v < c.conns - 1 ==> s.workers[v].pc == Waiting(g - 1) && s.workers[v].round == g - 1)
    && s.workers[c.conns - 1].pc.AtTop? && s.workers[c.conns - 1].round == g
  }

  /** What each worker is to do, and what has been sent of it when the workers below k are through round g
      and the others through the rounds before. */
  ghost predicate SentSoFar(c: Config, all: seq<seq<W.Plan>>, sent: seq<Word>, g: nat, k: nat) {
    && |sent| == |all| == c.conns
    && forall v :: 0 <= v < c.conns ==>
                     var n := if v < k then g + 1 else g;
                     n <= |all[v]| && sent[v] == RoundsWord(W.SettingOf(c, v), all[v], n)
  }

  ghost predicate AllOk(c: Config, all: seq<seq<W.Plan>>) {
    && |all| == c.conns
    && forall v: nat :: v < c.conns ==> |all[v]| == c.rounds && W.PlansOk(W.SettingOf(c, v), all[v])
  }

  /** Up to round g nobody breaks, and only workers in who insert and commit. */
  ghost predicate Peaceful(c: Config, all: seq<seq<W.Plan>>, g: nat, who: set<nat>)
    requires AllOk(c, all) && g <= c.rounds
  {
    forall v: nat, r: nat :: v < c.conns && r < g ==>
                               && !W.Breaks(W.SettingOf(c, v), all[v][r])
                               && (v in who || AllQuiet(W.RoundWord(W.SettingOf(c, v), r, all[v][r])))
  }

  lemma TurnSolo(c: Config, s: State, g: nat, k: nat, w: nat)
    requires Turn(c, s, g, k) && k <= w < c.conns
    ensures Solo(c, s, w) && W.ControlOf(s.workers[w]).pc.AtTop? && W.ControlOf(s.workers[w]).round == g
  {
    forall v | 0 <= v < |s.workers| ensures !s.workers[v].pc.Panicked? {
      if v < k { assert s.workers[v].pc == Waiting(g); }
    }
  }

  /** Worker k is at the barrier, those below it wait there. */
  ghost predicate AtWait(c: Config, s: State, g: nat, k: nat) {
    && |s.workers| == c.conns && k < c.conns && s.generation == g && s.gate.Free? && |s.db.versions| > 0
    && (forall v :: 0 <= v < k ==> s.workers[v].pc == Waiting(g))
    && s.workers[k].pc.AtBarrier? && s.workers[k].round == g
    && (forall v :: k < v < c.conns ==> s.workers[v].pc.AtTop? && s.workers[v].round == g)
  }

  lemma BesideWaits(c: Config, s: State, t: State, g: nat, k: nat)
    requires Turn(c, s, g, k) && k < c.conns && Beside(s, t, k) && Solo(c, t, k)
    requires t.workers[k].pc.AtBarrier? && t.workers[k].round == g
    ensures AtWait(c, t, g, k)
  {
  }

  lemma ArriveTurn(c: Config, s: State, sent: seq<Word>, g: nat, k: nat, who: set<nat>) returns (t: State)
    requires At(c, s, sent, who) && IdsApart(c, who) && AtWait(c, s, g, k) && k < |sent|
    ensures At(c, t, sent[k := sent[k] + [W.Waited]], who)
    ensures if k + 1 < c.conns then Turn(c, t, g, k + 1) else Waking(c, t, g + 1, 0)
  {
    ArriveInv(c, s, sent);
    WaitsBelow(c, s, g, k);
    t := Step(c, s, Arrive(k));
    ArriveStep(c, s, sent, Arrive(k));
    FreshStep(c, s, Arrive(k), who);
    AfterArrival(c, s, g, k);
  }

  lemma WaitsBelow(c: Config, s: State, g: nat, k: nat)
    requires BarrierOk(c, s) && AtWait(c, s, g, k)
    ensures s.arrived == k && Enabled(c, s, Arrive(k)) && W.Sends(c, s, Arrive(k)) == [W.Waited]
    ensures forall v :: 0 <= v < k ==> s.workers[v].round == g
  {
    BC.WaitingBelow(c, s, g, k);
    forall v | 0 <= v < |s.workers| ensures !s.workers[v].pc.Panicked? && WorkerOk(c, g, s.workers[v]) {
      if v < k { assert s.workers[v].pc == Waiting(g); }
    }
  }

  lemma AfterArrival(c: Config, s: State, g: nat, k: nat)
    requires AtWait(c, s, g, k) && s.arrived == k && Enabled(c, s, Arrive(k))
    requires forall v :: 0 <= v < k ==> s.workers[v].round == g
    ensures var t := Step(c, s, Arrive(k));
            if k + 1 < c.conns then Turn(c, t, g, k + 1) else Waking(c, t, g + 1, 0)
  {
  }

  lemma RoundsNext(d: W.Setting, plans: seq<W.Plan>, g: nat)
    requires g < |plans|
    ensures RoundsWord(d, plans, g + 1) == RoundsWord(d, plans, g) + (W.RoundWord(d, g, plans[g]) + [W.Waited])
  {
  }

  lemma SentMore(c: Config, all: seq<seq<W.Plan>>, sent: seq<Word>, g: nat, k: nat, word: Word)
    requires AllOk(c, all) && SentSoFar(c, all, sent, g, k) && k < c.conns && g < c.rounds
    requires word == W.RoundWord(W.SettingOf(c, k), g, all[k][g]) + [W.Waited]
    ensures SentSoFar(c, all, sent[k := sent[k] + word], g, k + 1)
  {
    var sent' := sent[k := sent[k] + word];
    RoundsNext(W.SettingOf(c, k), all[k], g);
    forall v: nat | v < c.conns && v != k ensures sent'[v] == sent[v] {}
  }

  lemma NextGeneration(c: Config, all: seq<seq<W.Plan>>, sent: seq<Word>, g: nat)
    requires SentSoFar(c, all, sent, g, c.conns)
    ensures SentSoFar(c, all, sent, g + 1, 0)
  {
  }

  /** Worker k sends its word of round g and arrives at the barrier. */
  lemma OneTurn(c: Config, all: seq<seq<W.Plan>>, s: State, sent: seq<Word>, g: nat, k: nat, who: set<nat>)
    returns (t: State, sent': seq<Word>)
    requires AllOk(c, all) && g < c.rounds && k < c.conns && IdsApart(c, who) && Peaceful(c, all, g + 1, who)
    requires At(c, s, sent, who) && Turn(c, s, g, k) && SentSoFar(c, all, sent, g, k)
    ensures At(c, t, sent', who) && SentSoFar(c, all, sent', g, k + 1)
    ensures if k + 1 < c.conns then Turn(c, t, g, k + 1) else Waking(c, t, g + 1, 0)
  {
    var d := W.SettingOf(c, k);
    var word := W.RoundWord(d, g, all[k][g]);
    TurnSolo(c, s, g, k, k);
    W.PlanAt(d, all[k], g);
    assert !W.Breaks(d, all[k][g]) && (k in who || AllQuiet(word));
    var y := W.RoundLeads(d, W.ControlOf(s.workers[k]), all[k][g]);
    var s1 := SoloWord(c, s, sent, k, word, y, who);
    BesideWaits(c, s, s1, g, k);
    t := ArriveTurn(c, s1, sent[k := sent[k] + word], g, k, who);
    sent' := sent[k := sent[k] + (word + [W.Waited])];
    PutTwice(sent, k, word, [W.Waited]);
    SentMore(c, all, sent, g, k, word + [W.Waited]);
  }

  lemma WakeKeeps(c: Config, s: State, g: nat, k: nat)
    requires Waking(c, s, g, k) && k < c.conns - 1
    ensures Enabled(c, s, Wake(k)) && Waking(c, Step(c, s, Wake(k)), g, k + 1) && W.Sends(c, s, Wake(k)) == []
  {
    forall v | 0 <= v < |s.workers| ensures !s.workers[v].pc.Panicked? {
      if k <= v < c.conns - 1 { assert s.workers[v].pc == Waiting(g - 1); }
    }
  }

  lemma OneWake(c: Config, s: State, sent: seq<Word>, g: nat, k: nat, who: set<nat>)
    requires At(c, s, sent, who) && IdsApart(c, who) && Waking(c, s, g, k) && k < c.conns - 1
    ensures Enabled(c, s, Wake(k)) && At(c, Step(c, s, Wake(k)), sent, who)
    ensures Waking(c, Step(c, s, Wake(k)), g, k + 1)
  {
    ArriveInv(c, s, sent);
    WakeKeeps(c, s, g, k);
    ArriveStep(c, s, sent, Wake(k));
    PutNothing(sent, k);
    FreshStep(c, s, Wake(k), who);
  }

  lemma {:induction false} RestWake(c: Config, s: State, sent: seq<Word>, g: nat, k: nat, who: set<nat>)
    returns (t: State)
    requires At(c, s, sent, who) && IdsApart(c, who) && Waking(c, s, g, k)
    ensures At(c, t, sent, who) && Turn(c, t, g, 0)
    decreases c.conns - k
  {
    if k == c.conns - 1 {
      t := s;
    } else {
      OneWake(c, s, sent, g, k, who);
      t := RestWake(c, Step(c, s, Wake(k)), sent, g, k + 1, who);
    }
  }

  lemma {:induction false} WholeRound(c: Config, all: seq<seq<W.Plan>>, s: State, sent: seq<Word>, g: nat, k: nat,
                                      who: set<nat>)
    returns (t: State, sent': seq<Word>)
    requires AllOk(c, all) && g < c.rounds && k < c.conns && IdsApart(c, who) && Peaceful(c, all, g + 1, who)
    requires At(c, s, sent, who) && Turn(c, s, g, k) && SentSoFar(c, all, sent, g, k)
    ensures At(c, t, sent', who) && Turn(c, t, g + 1, 0) && SentSoFar(c, all, sent', g + 1, 0)
    decreases c.conns - k
  {
    var s1, sent1 := OneTurn(c, all, s, sent, g, k, who);
    if k + 1 < c.conns {
      t, sent' := WholeRound(c, all, s1, sent1, g, k + 1, who);
    } else {
      t := RestWake(c, s1, sent1, g + 1, 0, who);
      sent' := sent1;
      NextGeneration(c, all, sent1, g);
    }
  }

  lemma FreshAtStart(c: Config, who: set<nat>)
    ensures FreshFor(c, Init(c), who)
  {
    InitCells(c.scale);
  }

  lemma StartTurn(c: Config, all: seq<seq<W.Plan>>, who: set<nat>)
    requires c.conns > 0 && AllOk(c, all)
    ensures At(c, Init(c), Nothing(c), who) && Turn(c, Init(c), 0, 0) && SentSoFar(c, all, Nothing(c), 0, 0)
  {
    ArriveFirst(c);
    FreshAtStart(c, who);
  }

  lemma PeacefulBefore(c: Config, all: seq<seq<W.Plan>>, m: nat, g: nat, who: set<nat>)
    requires AllOk(c, all) && m <= g <= c.rounds && Peaceful(c, all, g, who)
    ensures Peaceful(c, all, m, who)
  {
  }

  /** All workers are through g rounds, and have sent what was planned for them. */
  ghost predicate Done(c: Config, all: seq<seq<W.Plan>>, s: State, sent: seq<Word>, g: nat, who: set<nat>) {
    At(c, s, sent, who) && Turn(c, s, g, 0) && SentSoFar(c, all, sent, g, 0)
  }

  lemma OneMoreRound(c: Config, all: seq<seq<W.Plan>>, s: State, sent: seq<Word>, g: nat, who: set<nat>)
    returns (t: State, sent': seq<Word>)
    requires c.conns > 0 && AllOk(c, all) && g < c.rounds && IdsApart(c, who) && Peaceful(c, all, g + 1, who)
    requires Done(c, all, s, sent, g, who)
    ensures Done(c, all, t, sent', g + 1, who)
  {
    t, sent' := WholeRound(c, all, s, sent, g, 0, who);
  }

  ghost predicate CanDo(c: Config, all: seq<seq<W.Plan>>, g: nat, who: set<nat>) {
    exists s, sent :: Done(c, all, s, sent, g, who)
  }

  lemma CanDoNext(c: Config, all: seq<seq<W.Plan>>, g: nat, who: set<nat>)
    requires c.conns > 0 && AllOk(c, all) && g < c.rounds && IdsApart(c, who) && Peaceful(c, all, g + 1, who)
    requires CanDo(c, all, g, who)
    ensures CanDo(c, all, g + 1, who)
  {
    var s, sent :| Done(c, all, s, sent, g, who);
    var t, sent' := OneMoreRound(c, all, s, sent, g, who);
  }

  lemma {:induction false} CountUp(p: nat -> bool, m: nat, g: nat)
    requires m <= g && p(m) && forall k :: m <= k < g && p(k) ==> p(k + 1)
    ensures p(g)
    decreases g - m
  {
    if m < g {
      CountUp(p, m + 1, g);
    }
  }

  /** All workers together get through g rounds in which nobody breaks. */
  lemma ManyRounds(c: Config, all: seq<seq<W.Plan>>, g: nat, who: set<nat>) returns (t: State, sent: seq<Word>)
    requires c.conns > 0 && AllOk(c, all) && g <= c.rounds && IdsApart(c, who) && Peaceful(c, all, g, who)
    ensures Done(c, all, t, sent, g, who)
  {
    StartTurn(c, all, who);
    assert Done(c, all, Init(c), Nothing(c), 0, who);
    var can := (k: nat) => CanDo(c, all, k, who);
    forall k: nat | k < g && can(k) ensures can(k + 1) {
      PeacefulBefore(c, all, k + 1, g, who);
      CanDoNext(c, all, k, who);
    }
    CountUp(can, 0, g);
    assert can(g);
    t, sent :| Done(c, all, t, sent, g, who);
  }

  // ----- the word of the loop, round by round

  ghost predicate NoBreak(d: W.Setting, plans: seq<W.Plan>, g: nat) {
    g <= |plans| && forall r: nat :: r < g ==> !W.Breaks(d, plans[r])
  }

  lemma Assoc(a: Word, b: Word, e: Word, t: Word)
    ensures a + (b + (e + t)) == (a + (b + e)) + t
  {
  }

  lemma RestOfLoop(d: W.Setting, plans: seq<W.Plan>, g: nat)
    requires g < |plans|
    ensures var more := if W.Breaks(d, plans[g]) then [] else [W.Waited] + W.LoopWord(d, g + 1, plans[g + 1..]);
            W.LoopWord(d, g, plans[g..]) == W.RoundWord(d, g, plans[g]) + more
  {
    assert plans[g..][0] == plans[g] && plans[g..][1..] == plans[g + 1..];
  }

  /** The loop's word is that of the first g rounds, and then that of the rest. */
  ghost predicate SplitsAt(d: W.Setting, plans: seq<W.Plan>, g: nat) {
    g <= |plans| && W.LoopWord(d, 0, plans) == RoundsWord(d, plans, g) + W.LoopWord(d, g, plans[g..])
  }

  lemma SplitFirst(d: W.Setting, plans: seq<W.Plan>)
    ensures SplitsAt(d, plans, 0)
  {
    assert plans[0..] == plans;
  }

  lemma SplitNext(d: W.Setting, plans: seq<W.Plan>, g: nat)
    requires NoBreak(d, plans, g + 1) && SplitsAt(d, plans, g)
    ensures SplitsAt(d, plans, g + 1)
  {
    RestOfLoop(d, plans, g);
    Assoc(RoundsWord(d, plans, g), W.RoundWord(d, g, plans[g]), [W.Waited], W.LoopWord(d, g + 1, plans[g + 1..]));
  }

  lemma LessBreaks(d: W.Setting, plans: seq<W.Plan>, m: nat, g: nat)
    requires NoBreak(d, plans, g) && m <= g
    ensures NoBreak(d, plans, m)
  {
  }

  lemma LoopSplit(d: W.Setting, plans: seq<W.Plan>, g: nat)
    requires NoBreak(d, plans, g)
    ensures SplitsAt(d, plans, g)
  {
    SplitFirst(d, plans);
    var splits := (k: nat) => SplitsAt(d, plans, k);
    forall k: nat | k < g && splits(k) ensures splits(k + 1) {
      LessBreaks(d, plans, k + 1, g);
      SplitNext(d, plans, k);
    }
    CountUp(splits, 0, g);
  }

  /** What is left of a beginning of the loop's word after g rounds. */
  ghost predicate LastRound(d: W.Setting, plans: seq<W.Plan>, g: nat, u: Word) {
    && NoBreak(d, plans, g)
    && if g < |plans| then u <= W.RoundWord(d, g, plans[g]) else u <= [W.Closed]
  }

  lemma CutFront(a: Word, t: Word, b: Word) returns (u: Word)
    requires a <= t <= a + b
    ensures t == a + u && u <= b
  {
    u := t[|a|..];
    assert t == a + u;
    assert (a + b)[|a|..] == b;
  }

  lemma PastRound(a: Word, word: Word, e: W.Event, more: Word, u: Word)
    requires u <= word + ([e] + more) && |u| > |word|
    ensures a + (word + [e]) <= a + u
  {
    assert word + [e] <= u;
  }

  /** Every beginning of the loop's word ends inside some round, or with the end of the loop. */
  lemma {:induction false} FindRound(d: W.Setting, plans: seq<W.Plan>, t: Word, g0: nat) returns (g: nat, u: Word)
    requires NoBreak(d, plans, g0) && RoundsWord(d, plans, g0) <= t <= W.LoopWord(d, 0, plans)
    ensures LastRound(d, plans, g, u) && t == RoundsWord(d, plans, g) + u
    decreases |plans| - g0
  {
    LoopSplit(d, plans, g0);
    u := CutFront(RoundsWord(d, plans, g0), t, W.LoopWord(d, g0, plans[g0..]));
    g := g0;
    if g0 < |plans| {
      if |u| > |W.RoundWord(d, g0, plans[g0])| {
        RoundIsOver(d, plans, g0, u);
        g, u := FindRound(d, plans, t, g0 + 1);
      } else {
        StillInRound(d, plans, g0, u);
      }
    }
  }

  lemma RoundIsOver(d: W.Setting, plans: seq<W.Plan>, g: nat, u: Word)
    requires NoBreak(d, plans, g) && g < |plans| && u <= W.LoopWord(d, g, plans[g..])
    requires |u| > |W.RoundWord(d, g, plans[g])|
    ensures NoBreak(d, plans, g + 1) && RoundsWord(d, plans, g + 1) <= RoundsWord(d, plans, g) + u
  {
    RestOfLoop(d, plans, g);
    PastRound(RoundsWord(d, plans, g), W.RoundWord(d, g, plans[g]), W.Waited,
              W.LoopWord(d, g + 1, plans[g + 1..]), u);
  }

  lemma StillInRound(d: W.Setting, plans: seq<W.Plan>, g: nat, u: Word)
    requires g < |plans| && u <= W.LoopWord(d, g, plans[g..]) && |u| <= |W.RoundWord(d, g, plans[g])|
    ensures u <= W.RoundWord(d, g, plans[g])
  {
    RestOfLoop(d, plans, g);
  }

  lemma {:induction false} LeadsPrefix(d: W.Setting, x: W.Control, t: Word, z: W.Control, u: Word)
    returns (y: W.Control)
    requires W.Leads(d, x, t, z) && u <= t
    ensures W.Leads(d, x, u, y) && x.round <= y.round <= z.round
    decreases |u|
  {
    if u == [] {
      RoundsGrow(d, x, t, z);
      y := x;
    } else {
      y := LeadsPrefix(d, W.Next(x, t[0]), t[1..], z, u[1..]);
    }
  }

  lemma LastLeads(d: W.Setting, plans: seq<W.Plan>, g: nat, u: Word, x: W.Control) returns (y: W.Control)
    requires |plans| == d.rounds && W.PlansOk(d, plans) && LastRound(d, plans, g, u) && x.pc.AtTop? && x.round == g
    ensures W.Leads(d, x, u, y) && y.round == g
  {
    var word, z := [W.Closed], W.Next(x, W.Closed);
    if g < |plans| {
      W.PlanAt(d, plans, g);
      word := W.RoundWord(d, g, plans[g]);
      z := W.RoundLeads(d, x, plans[g]);
    } else {
      W.LeadsOne(d, x, W.Closed);
    }
    y := LeadsPrefix(d, x, word, z, u);
  }

  // ----- a round that does nothing

  /** BUSY eight times over. */
  function IdlePlan(): W.Plan { W.Plan(0, 0, seq(ATTEMPTS, _ => W.BusyAt(W.UpdateStmt))) }

  lemma QuietConcat(a: Word, b: Word)
    requires AllQuiet(a) && AllQuiet(b)
    ensures AllQuiet(a + b)
  {
  }

  lemma {:induction false} IdleTries(account: int, delta: int, id: int, replies: seq<W.Reply>)
    requires forall i :: 0 <= i < |replies| ==> replies[i] == W.BusyAt(W.UpdateStmt)
    ensures AllQuiet(W.TriesWord(account, delta, id, replies)) && W.Retried(W.Decision(replies))
  {
    if replies != [] {
      IdleTries(account, delta, id, replies[1..]);
      QuietConcat(W.AttemptWord(account, delta, id, replies[0]), W.TriesWord(account, delta, id, replies[1..]));
    }
  }

  lemma IdleRound(d: W.Setting, r: nat)
    requires d.scale > 0
    ensures AllQuiet(W.RoundWord(d, r, IdlePlan())) && !W.Breaks(d, IdlePlan()) && W.PlanOk(d, IdlePlan())
  {
    IdleTries(0, 0, HistoryId(d.w, r), IdlePlan().replies);
    QuietConcat([W.Drawn(0, 0)], W.TriesWord(0, 0, HistoryId(d.w, r), IdlePlan().replies));
  }

  /** Worker w does as planned, and all others do nothing. */
  function Alone(c: Config, w: nat, plans: seq<W.Plan>): seq<seq<W.Plan>>
    requires w < c.conns
  {
    seq(c.conns, v => if v == w then plans else seq(c.rounds, _ => IdlePlan()))
  }

  lemma AloneOk(c: Config, w: nat, plans: seq<W.Plan>, g: nat)
    requires w < c.conns && |plans| == c.rounds && W.PlansOk(W.SettingOf(c, w), plans)
    requires NoBreak(W.SettingOf(c, w), plans, g)
    ensures AllOk(c, Alone(c, w, plans)) && Peaceful(c, Alone(c, w, plans), g, {w})
  {
    var all := Alone(c, w, plans);
    forall v: nat | v < c.conns ensures |all[v]| == c.rounds && W.PlansOk(W.SettingOf(c, v), all[v]) {
      if v != w && c.scale > 0 { IdleRound(W.SettingOf(c, v), 0); }
    }
    forall v: nat, r: nat | v < c.conns && r < g
      ensures !W.Breaks(W.SettingOf(c, v), all[v][r])
      ensures v == w || AllQuiet(W.RoundWord(W.SettingOf(c, v), r, all[v][r]))
    {
      assert !W.Breaks(W.SettingOf(c, w), plans[r]);
      if v != w { IdleRound(W.SettingOf(c, v), r); }
    }
  }

  lemma OwnIdsApart(c: Config, w: nat)
    ensures IdsApart(c, {w})
  {
  }

  // ----- every word of every worker

  /** For any draws in range and any replies, however many connections there are: a run in which worker w
      sends the word of its loop, or the given beginning of it. */
  lemma WordHasRun(c: Config, w: nat, plans: seq<W.Plan>, t: Word) returns (ss: seq<State>, acts: seq<Action>)
    requires w < c.conns && |plans| == c.rounds && t <= W.LoopWord(W.Setting(w, c.rounds, c.scale), 0, plans)
    requires c.scale > 0 ==>
               forall p :: p in plans ==> 0 <= p.account < c.scale && -100 <= p.delta < 100 && |p.replies| == 8
    ensures IsRun(c, ss, acts) && W.SentBy(c, ss, acts, w, |acts|) == t
  {
    var d, who, all := W.SettingOf(c, w), {w}, Alone(c, w, plans);
    var g, u := FindRound(d, plans, t, 0);
    AloneOk(c, w, plans, g);
    OwnIdsApart(c, w);
    var s, sent := ManyRounds(c, all, g, who);
    TurnSolo(c, s, g, 0, w);
    var y := LastLeads(d, plans, g, u, W.ControlOf(s.workers[w]));
    var s' := SoloWord(c, s, sent, w, u, y, who);
    ss, acts :| RunTo(c, ss, acts, s', sent[w := sent[w] + u]);
  }

  ghost predicate SendsIn(c: Config, ss: seq<State>, acts: seq<Action>, w: nat, t: Word) {
    IsRun(c, ss, acts) && W.SentBy(c, ss, acts, w, |acts|) == t
  }

  /** The plans are in range, and their loop begins with t. */
  ghost predicate PlansFor(c: Config, w: nat, plans: seq<W.Plan>, t: Word) {
    && |plans| == c.rounds && t <= W.LoopWord(W.Setting(w, c.rounds, c.scale), 0, plans)
    && (c.scale > 0 ==>
          forall p :: p in plans ==> 0 <= p.account < c.scale && -100 <= p.delta < 100 && |p.replies| == 8)
  }

  /** What a worker can have sent in the runs of the burst are exactly the beginnings of the words of its
      loop, for all draws in range and all replies. */
  lemma WordIff(c: Config, w: nat, t: Word)
    requires w < c.conns
    ensures (exists ss, acts :: SendsIn(c, ss, acts, w, t)) <==> (exists plans :: PlansFor(c, w, plans, t))
  {
    if ss, acts :| SendsIn(c, ss, acts, w, t) {
      SentIsPlanned(c, ss, acts, w, t);
    }
    if plans :| PlansFor(c, w, plans, t) {
      var ss, acts := WordHasRun(c, w, plans, t);
      assert SendsIn(c, ss, acts, w, t);
    }
  }

  lemma SentIsPlanned(c: Config, ss: seq<State>, acts: seq<Action>, w: nat, t: Word)
    requires w < c.conns && SendsIn(c, ss, acts, w, t)
    ensures exists plans :: PlansFor(c, w, plans, t)
  {
    var plans := W.EachWorkerLoops(c, ss, acts, w, |acts|);
    if c.scale > 0 { InRangePlans(c, w, plans); }
    assert PlansFor(c, w, plans, t);
  }

  lemma InRangePlans(c: Config, w: nat, plans: seq<W.Plan>)
    requires W.PlansOk(W.SettingOf(c, w), plans) && c.scale > 0
    ensures forall p :: p in plans ==> 0 <= p.account < c.scale && -100 <= p.delta < 100 && |p.replies| == 8
  {
  }

  // ----- all workers at once

  /** The workers below k have finished, the others are at the end of their last round. */
  ghost predicate Closing(c: Config, s: State, k: nat) {
    && |s.workers| == c.conns && k <= c.conns
    && (forall v :: 0 <= v < k ==> s.workers[v].pc.Finished?)
    && (forall v :: k <= v < c.conns ==> s.workers[v].pc.AtTop? && s.workers[v].round == c.rounds)
  }

  ghost predicate SentAll(c: Config, all: seq<seq<W.Plan>>, sent: seq<Word>, k: nat)
    requires AllOk(c, all)
  {
    && |sent| == c.conns
    && forall v: nat :: v < c.conns ==>
                          sent[v] == RoundsWord(W.SettingOf(c, v), all[v], c.rounds) + if v < k then [W.Closed] else []
  }

  lemma OneCloses(c: Config, all: seq<seq<W.Plan>>, s: State, sent: seq<Word>, k: nat) returns (t: State)
    requires AllOk(c, all) && Arrives(c, s, sent) && Closing(c, s, k) && SentAll(c, all, sent, k) && k < c.conns
    requires |s.db.versions| > 0
    ensures Arrives(c, t, sent[k := sent[k] + [W.Closed]]) && Closing(c, t, k + 1) && |t.db.versions| > 0
  {
    t := Step(c, s, Finish(k));
    ArriveStep(c, s, sent, Finish(k));
  }

  lemma {:induction false} AllClose(c: Config, all: seq<seq<W.Plan>>, s: State, sent: seq<Word>, k: nat)
    returns (t: State, sent': seq<Word>)
    requires AllOk(c, all) && Arrives(c, s, sent) && Closing(c, s, k) && SentAll(c, all, sent, k)
    requires |s.db.versions| > 0
    ensures Arrives(c, t, sent') && Closing(c, t, c.conns) && SentAll(c, all, sent', c.conns)
    decreases c.conns - k
  {
    if k == c.conns {
      t, sent' := s, sent;
    } else {
      var s1 := OneCloses(c, all, s, sent, k);
      t, sent' := AllClose(c, all, s1, sent[k := sent[k] + [W.Closed]], k + 1);
    }
  }

  lemma WholeWord(c: Config, plans: seq<W.Plan>, w: nat)
    requires NoBreak(W.SettingOf(c, w), plans, c.rounds) && |plans| == c.rounds
    ensures W.LoopWord(W.SettingOf(c, w), 0, plans) == RoundsWord(W.SettingOf(c, w), plans, c.rounds) + [W.Closed]
  {
    LoopSplit(W.SettingOf(c, w), plans, c.rounds);
  }

  /** For any draws in range and any replies that break no round: one run in which every worker sends the
      whole word of its own loop. The ids have to be distinct, or an insert fails that was to be served. */
  lemma WordsHaveRun(c: Config, all: seq<seq<W.Plan>>) returns (ss: seq<State>, acts: seq<Action>)
    requires c.conns == 1 || c.rounds <= 1_000_000
    requires |all| == c.conns && forall v: nat :: v < c.conns ==> |all[v]| == c.rounds
    requires forall v: nat, r: nat :: v < c.conns && r < c.rounds ==>
                                        var p := all[v][r];
                                        && 0 <= p.account < c.scale && -100 <= p.delta < 100 && |p.replies| == 8
                                        && !W.Breaks(W.Setting(v, c.rounds, c.scale), p)
    ensures IsRun(c, ss, acts) && |ss[|acts|].workers| == c.conns
    ensures forall w: nat :: w < c.conns ==>
                               && ss[|acts|].workers[w].pc.Finished?
                               && W.SentBy(c, ss, acts, w, |acts|)
                                  == W.LoopWord(W.Setting(w, c.rounds, c.scale), 0, all[w])
  {
    if c.conns == 0 {
      ss, acts := [Init(c)], [];
    } else {
      var who := Below(c.conns);
      IdsDistinctIff(c.conns, c.rounds);
      var s, sent0 := ManyRounds(c, all, c.rounds, who);
      var t, sent := AllClose(c, all, s, sent0, 0);
      ss, acts :| RunTo(c, ss, acts, t, sent);
      WholeWords(c, all, sent);
    }
  }

  lemma WholeWords(c: Config, all: seq<seq<W.Plan>>, sent: seq<Word>)
    requires AllOk(c, all) && SentAll(c, all, sent, c.conns)
    requires forall v: nat, r: nat :: v < c.conns && r < c.rounds ==> !W.Breaks(W.SettingOf(c, v), all[v][r])
    ensures forall w: nat :: w < c.conns ==> sent[w] == W.LoopWord(W.SettingOf(c, w), 0, all[w])
  {
    forall w: nat | w < c.conns ensures sent[w] == W.LoopWord(W.SettingOf(c, w), 0, all[w]) {
      WholeWord(c, all[w], w);
    }
  }
}
