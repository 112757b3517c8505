/** One connection of the burst as the client code runs it: nested round and attempt loops, driven by
    what it draws and what the engine replies. The loop sends exactly the words of the worker automaton,
    and what a worker does in any interleaved run is such a word, so each interleaved worker is a run of
    the loop. */
module WorkerLoop {
  import opened OltpBurst

  // ----- the worker automaton

  /** What one connection sends, with how it went. */
  datatype Event =
    | Drawn(account: int, delta: int)
    | Begun
    | Updated(account: int, delta: int)
    | Inserted(id: int, account: int, delta: int)
    | Selected(account: int)
    | Refused
    | Failed
    | Committed
    | Conflicted
    | GaveUp
    | Waited
    | Closed

  datatype Control = Control(pc: Pc, round: nat, attempt: nat, account: int, delta: int, commits: nat, conflicts: nat)

  /** The connection's number, and the size of the burst. */
  datatype Setting = Setting(w: nat, rounds: nat, scale: nat)

  function Initially(): Control { Control(AtTop, 0, 0, 0, 0, 0, 0) }

  predicate InRange(c: Setting, account: int, delta: int) { 0 <= account < c.scale && -100 <= delta < 100 }

  predicate Accepts(c: Setting, x: Control, e: Event) {
    match e
    case Drawn(account, delta) => x.pc.AtTop? && x.round < c.rounds && InRange(c, account, delta)
    case Begun => x.pc.AtBegin? && x.attempt < ATTEMPTS
    case Updated(account, delta) => x.pc.AtUpdate? && (account, delta) == (x.account, x.delta)
    case Inserted(id, account, delta) =>
      x.pc.AtAppend? && (id, account, delta) == (HistoryId(c.w, x.round), x.account, x.delta)
    case Selected(account) => x.pc.AtRead? && account == x.account
    case Refused => InBody(x.pc)
    case Failed =>
      (x.pc.AtTop? && x.round < c.rounds && c.scale == 0)
      || (x.pc.AtBegin? && x.attempt < ATTEMPTS)
      || InBody(x.pc) || x.pc.AtCommit?
    case Committed => x.pc.AtCommit?
    case Conflicted => x.pc.AtCommit?
    case GaveUp => x.pc.AtBegin? && x.attempt == ATTEMPTS
    case Waited => x.pc.AtBarrier?
    case Closed => x.pc.AtTop? && x.round == c.rounds
  }

  function Next(x: Control, e: Event): Control {
    match e
    case Drawn(account, delta) => x.(pc := AtBegin, attempt := 0, account := account, delta := delta)
    case Begun => x.(pc := AtUpdate, attempt := x.attempt + 1)
    case Updated(_, _) => x.(pc := AtAppend)
    case Inserted(_, _, _) => x.(pc := AtRead)
    case Selected(_) => x.(pc := AtCommit)
    case Refused => x.(pc := AtBegin)
    case Failed => x.(pc := Panicked)
    case Committed => x.(pc := AtBarrier, commits := x.commits + 1)
    case Conflicted => x.(pc := AtBegin, conflicts := x.conflicts + 1)
    case GaveUp => x.(pc := AtBarrier)
    case Waited => x.(pc := AtTop, round := x.round + 1)
    case Closed => x.(pc := Finished)
  }

  /** The word t leads the automaton from x to y. */
  predicate Leads(c: Setting, x: Control, t: seq<Event>, y: Control)
    decreases |t|
  {
    if t == [] then x == y else Accepts(c, x, t[0]) && Leads(c, Next(x, t[0]), t[1..], y)
  }

  predicate Ended(pc: Pc) { pc.Finished? || pc.Panicked? }

  lemma {:induction false} LeadsConcat(c: Setting, x: Control, t: seq<Event>, y: Control, u: seq<Event>, z: Control)
    requires Leads(c, x, t, y) && Leads(c, y, u, z)
    ensures Leads(c, x, t + u, z)
    decreases |t|
  {
    if t == [] {
      assert t + u == u;
    } else {
      LeadsConcat(c, Next(x, t[0]), t[1..], y, u, z);
      assert (t + u)[0] == t[0] && (t + u)[1..] == t[1..] + u;
    }
  }

  lemma LeadsOne(c: Setting, x: Control, e: Event)
    requires Accepts(c, x, e)
    ensures Leads(c, x, [e], Next(x, e))
  {
    assert [e][1..] == [];
  }

  // ----- the words of the loop

  datatype Statement = UpdateStmt | InsertStmt | SelectStmt

  /** How the engine answers one attempt. */
  datatype Reply = BeginError | Served | BusyAt(at: Statement) | ErrorAt(at: Statement) | Snapshot | CommitError

  /** One round: what is drawn, and the reply to each attempt that the round may come to. */
  datatype Plan = Plan(account: int, delta: int, replies: seq<Reply>)

  predicate Retried(r: Reply) { r.BusyAt? || r.Snapshot? }

  predicate PlanOk(c: Setting, p: Plan) { InRange(c, p.account, p.delta) && |p.replies| == ATTEMPTS }

  predicate PlansOk(c: Setting, plans: seq<Plan>) {
    c.scale > 0 ==> forall p :: p in plans ==> PlanOk(c, p)
  }

  function Stop(r: Reply): Event { if r.BusyAt? then Refused else Failed }

  /** The statements of the body in order, up to the first that is not served. */
  function BodyWord(account: int, delta: int, id: int, r: Reply): seq<Event> {
    if r == BusyAt(UpdateStmt) || r == ErrorAt(UpdateStmt) then [Stop(r)]
    else if r == BusyAt(InsertStmt) || r == ErrorAt(InsertStmt) then [Updated(account, delta), Stop(r)]
    else if r == BusyAt(SelectStmt) || r == ErrorAt(SelectStmt) then
      [Updated(account, delta), Inserted(id, account, delta), Stop(r)]
    else [Updated(account, delta), Inserted(id, account, delta), Selected(account)]
  }

  function CommitWord(r: Reply): seq<Event> {
    if r.BusyAt? || r.ErrorAt? then []
    else [if r.Served? then Committed else if r.Snapshot? then Conflicted else Failed]
  }

  function AttemptWord(account: int, delta: int, id: int, r: Reply): seq<Event> {
    if r.BeginError? then [Failed] else [Begun] + BodyWord(account, delta, id, r) + CommitWord(r)
  }

  /** Attempts until one is not retried or none is left. */
  function TriesWord(account: int, delta: int, id: int, replies: seq<Reply>): seq<Event> {
    if replies == [] then [GaveUp]
    else AttemptWord(account, delta, id, replies[0])
         + if Retried(replies[0]) then TriesWord(account, delta, id, replies[1..]) else []
  }

  function RoundWord(c: Setting, round: nat, p: Plan): seq<Event> {
    if c.scale == 0 then [Failed]
    else [Drawn(p.account, p.delta)] + TriesWord(p.account, p.delta, HistoryId(c.w, round), p.replies)
  }

  /** The reply that decides a round, if any attempt is not retried. */
  function Decision(replies: seq<Reply>): Reply {
    if replies == [] then Snapshot else if Retried(replies[0]) then Decision(replies[1..]) else replies[0]
  }

  predicate Pays(p: Plan) { Decision(p.replies).Served? }

  predicate Breaks(c: Setting, p: Plan) { c.scale == 0 || !(Pays(p) || Retried(Decision(p.replies))) }

  /** All rounds from round on: one barrier wait per round, up to the end or the first that breaks. */
  function LoopWord(c: Setting, round: nat, plans: seq<Plan>): seq<Event>
    decreases |plans|
  {
    if plans == [] then [Closed]
    else RoundWord(c, round, plans[0])
         + if Breaks(c, plans[0]) then [] else [Waited] + LoopWord(c, round + 1, plans[1..])
  }

  // ----- what the client's counters come to

  function ConflictsIn(replies: seq<Reply>): nat {
    if replies == [] || !Retried(replies[0]) then 0
    else (if replies[0].Snapshot? then 1 else 0) + ConflictsIn(replies[1..])
  }

  function RoundConflicts(c: Setting, p: Plan): nat { if c.scale == 0 then 0 else ConflictsIn(p.replies) }

  function RoundCommits(c: Setting, p: Plan): nat { if c.scale > 0 && Pays(p) then 1 else 0 }

  /** Rounds got through. */
  function Through(c: Setting, plans: seq<Plan>): nat {
    if plans == [] || Breaks(c, plans[0]) then 0 else 1 + Through(c, plans[1..])
  }

  function Commits(c: Setting, plans: seq<Plan>): nat {
    if plans == [] then 0
    else RoundCommits(c, plans[0]) + if Breaks(c, plans[0]) then 0 else Commits(c, plans[1..])
  }

  function Conflicts(c: Setting, plans: seq<Plan>): nat {
    if plans == [] then 0
    else RoundConflicts(c, plans[0]) + if Breaks(c, plans[0]) then 0 else Conflicts(c, plans[1..])
  }

  // ----- the loop

  datatype Outcome = Ok | Locked | Error

  function Answer(r: Reply, at: Statement): Outcome {
    if r == BusyAt(at) then Locked else if r == ErrorAt(at) then Error else Ok
  }

  lemma OneOfThree(r: Reply)
    requires r.BusyAt? || r.ErrorAt?
    ensures !Answer(r, UpdateStmt).Ok? || !Answer(r, InsertStmt).Ok? || !Answer(r, SelectStmt).Ok?
  {
    match r.at
    case UpdateStmt =>
    case InsertStmt =>
    case SelectStmt =>
  }

  function BodyOutcome(r: Reply): Outcome {
    if r.BusyAt? then Locked else if r.ErrorAt? then Error else Ok
  }

  /** The body of one transaction. */
  method RunOneTxn(account: int, delta: int, id: int, reply: Reply) returns (sent: seq<Event>, r: Outcome)
    ensures sent == BodyWord(account, delta, id, reply)
    ensures r == BodyOutcome(reply)
  {
    if reply.BusyAt? || reply.ErrorAt? { OneOfThree(reply); }
    sent := [];
    r := Answer(reply, UpdateStmt);
    if !r.Ok? { return sent + [Stop(reply)], r; }
    sent := sent + [Updated(account, delta)];
    r := Answer(reply, InsertStmt);
    if !r.Ok? { return sent + [Stop(reply)], r; }
    sent := sent + [Inserted(id, account, delta)];
    r := Answer(reply, SelectStmt);
    if !r.Ok? { return sent + [Stop(reply)], r; }
    sent := sent + [Selected(account)];
  }

  /** One attempt, from BEGIN to the reply to COMMIT or the rollback. */
  method RunAttempt(account: int, delta: int, id: int, reply: Reply) returns (sent: seq<Event>)
    ensures sent == AttemptWord(account, delta, id, reply)
  {
    if reply.BeginError? { return [Failed]; }
    var body, r := RunOneTxn(account, delta, id, reply);
    sent := [Begun] + body;
    if r.Ok? {
      sent := sent + [if reply.Served? then Committed else if reply.Snapshot? then Conflicted else Failed];
    } else {
      assert sent + [] == sent;
    }
  }

  /** What is still to come when the round is at attempt k, or was decided by it. */
  ghost predicate Tried(account: int, delta: int, id: int, replies: seq<Reply>, k: nat, paid: bool, panicked: bool,
                        sent: seq<Event>, conflicts: nat)
    requires k <= |replies|
  {
    var rest := replies[k..];
    if paid || panicked
    then
      && TriesWord(account, delta, id, replies) == sent && ConflictsIn(replies) == conflicts
      && Decision(replies).Served? == paid && panicked == !(paid || Retried(Decision(replies)))
    else
      && TriesWord(account, delta, id, replies) == sent + TriesWord(account, delta, id, rest)
      && ConflictsIn(replies) == conflicts + ConflictsIn(rest)
      && Decision(replies) == Decision(rest)
  }

  lemma TriedStep(account: int, delta: int, id: int, replies: seq<Reply>, k: nat, sent: seq<Event>, conflicts: nat)
    requires k < |replies| && Tried(account, delta, id, replies, k, false, false, sent, conflicts)
    ensures var r := replies[k];
            var sent' := sent + AttemptWord(account, delta, id, r);
            Tried(account, delta, id, replies, if Retried(r) then k + 1 else k, r.Served?, !r.Served? && !Retried(r),
                  sent', conflicts + if r.Snapshot? then 1 else 0)
  {
    var word, more := AttemptWord(account, delta, id, replies[k]), TriesWord(account, delta, id, replies[k + 1..]);
    assert replies[k..][1..] == replies[k + 1..];
    if Retried(replies[k]) {
      assert sent + (word + more) == sent + word + more;
    } else {
      assert word + [] == word;
    }
  }

  lemma TriedFirst(account: int, delta: int, id: int, replies: seq<Reply>)
    ensures Tried(account, delta, id, replies, 0, false, false, [], 0)
  {
    assert replies[0..] == replies;
  }

  /** The round is decided, or none of the attempts decided it. */
  lemma TriedLast(account: int, delta: int, id: int, replies: seq<Reply>, k: nat, paid: bool, panicked: bool,
                  sent: seq<Event>, conflicts: nat)
    requires k <= |replies| && Tried(account, delta, id, replies, k, paid, panicked, sent, conflicts)
    requires paid || panicked || k == |replies|
    ensures TriesWord(account, delta, id, replies) == if paid || panicked then sent else sent + [GaveUp]
    ensures ConflictsIn(replies) == conflicts && paid == Decision(replies).Served?
    ensures panicked == !(paid || Retried(Decision(replies)))
  {
  }

  /** The attempts of one round: at most eight, all with the same payment. */
  method RunTries(account: int, delta: int, id: int, replies: seq<Reply>)
    returns (sent: seq<Event>, conflicts: nat, paid: bool, panicked: bool)
    requires |replies| == ATTEMPTS
    ensures sent == TriesWord(account, delta, id, replies) && conflicts == ConflictsIn(replies)
    ensures paid == Decision(replies).Served?
    ensures panicked == !(paid || Retried(Decision(replies)))
  {
    sent, conflicts, paid, panicked := [], 0, false, false;
    var attempt := 0;
    TriedFirst(account, delta, id, replies);
    while attempt < ATTEMPTS && !paid && !panicked
      invariant 0 <= attempt <= ATTEMPTS
      invariant Tried(account, delta, id, replies, attempt, paid, panicked, sent, conflicts)
      decreases ATTEMPTS - attempt, if paid || panicked then 0 else 1
    {
      var reply := replies[attempt];
      TriedStep(account, delta, id, replies, attempt, sent, conflicts);
      var more := RunAttempt(account, delta, id, reply);
      sent := sent + more;
      paid, panicked := reply.Served?, !reply.Served? && !Retried(reply);
      conflicts := conflicts + if reply.Snapshot? then 1 else 0;
      attempt := if Retried(reply) then attempt + 1 else attempt;
    }
    TriedLast(account, delta, id, replies, attempt, paid, panicked, sent, conflicts);
    sent := if paid || panicked then sent else sent + [GaveUp];
  }

  /** One round up to the barrier, or to a panic. */
  method RunRound(c: Setting, round: nat, p: Plan)
    returns (sent: seq<Event>, conflicts: nat, paid: bool, panicked: bool)
    requires c.scale > 0 ==> PlanOk(c, p)
    ensures sent == RoundWord(c, round, p) && conflicts == RoundConflicts(c, p)
    ensures (if paid then 1 else 0) == RoundCommits(c, p) && panicked == Breaks(c, p)
  {
    if c.scale == 0 { return [Failed], 0, false, true; }
    sent, conflicts, paid, panicked := RunTries(p.account, p.delta, HistoryId(c.w, round), p.replies);
    sent := [Drawn(p.account, p.delta)] + sent;
  }

  /** The plans from the k-th round on, one round at a time. */
  lemma LoopStep(c: Setting, plans: seq<Plan>, k: nat, before: seq<Event>)
    requires k < |plans|
    ensures var p, rest, more := plans[k], plans[k..], plans[k + 1..];
            && before + LoopWord(c, k, rest)
               == (before + RoundWord(c, k, p)) + (if Breaks(c, p) then [] else [Waited] + LoopWord(c, k + 1, more))
            && Commits(c, rest) == RoundCommits(c, p) + (if Breaks(c, p) then 0 else Commits(c, more))
            && Conflicts(c, rest) == RoundConflicts(c, p) + (if Breaks(c, p) then 0 else Conflicts(c, more))
            && Through(c, rest) == if Breaks(c, p) then 0 else 1 + Through(c, more)
  {
    assert plans[k..][1..] == plans[k + 1..];
  }

  /** What is still to come when the loop is at round k, or has panicked there. */
  ghost predicate SoFar(c: Setting, plans: seq<Plan>, k: nat, panicked: bool,
                        sent: seq<Event>, commits: nat, conflicts: nat)
    requires k <= |plans|
  {
    var rest := plans[k..];
    if panicked
    then LoopWord(c, 0, plans) == sent && Commits(c, plans) == commits
         && Conflicts(c, plans) == conflicts && Through(c, plans) == k < |plans|
    else
      && LoopWord(c, 0, plans) == sent + LoopWord(c, k, rest)
      && Commits(c, plans) == commits + Commits(c, rest)
      && Conflicts(c, plans) == conflicts + Conflicts(c, rest)
      && Through(c, plans) == k + Through(c, rest)
  }

  lemma SoFarStep(c: Setting, plans: seq<Plan>, k: nat, sent: seq<Event>, commits: nat, conflicts: nat)
    requires k < |plans| && SoFar(c, plans, k, false, sent, commits, conflicts)
    ensures var p := plans[k];
            var sent' := sent + RoundWord(c, k, p);
            var commits', conflicts' := commits + RoundCommits(c, p), conflicts + RoundConflicts(c, p);
            SoFar(c, plans, if Breaks(c, p) then k else k + 1, Breaks(c, p),
                  sent' + (if Breaks(c, p) then [] else [Waited]), commits', conflicts')
  {
    LoopStep(c, plans, k, sent);
    var sent' := sent + RoundWord(c, k, plans[k]);
    if Breaks(c, plans[k]) {
      assert sent' + [] == sent';
    } else {
      assert sent' + ([Waited] + LoopWord(c, k + 1, plans[k + 1..]))
          == (sent' + [Waited]) + LoopWord(c, k + 1, plans[k + 1..]);
    }
  }

  lemma PlanAt(c: Setting, plans: seq<Plan>, k: nat)
    requires PlansOk(c, plans) && k < |plans|
    ensures c.scale > 0 ==> PlanOk(c, plans[k])
  {
  }

  lemma SoFarFirst(c: Setting, plans: seq<Plan>)
    ensures SoFar(c, plans, 0, false, [], 0, 0)
  {
    assert plans[0..] == plans;
    assert [] + LoopWord(c, 0, plans) == LoopWord(c, 0, plans);
  }

  lemma SoFarLast(c: Setting, plans: seq<Plan>, k: nat, panicked: bool, sent: seq<Event>, commits: nat, conflicts: nat)
    requires k <= |plans| && SoFar(c, plans, k, panicked, sent, commits, conflicts) && (panicked || k == |plans|)
    ensures LoopWord(c, 0, plans) == if panicked then sent else sent + [Closed]
    ensures Commits(c, plans) == commits && Conflicts(c, plans) == conflicts
    ensures Through(c, plans) == k && panicked == (k < |plans|)
  {
  }

  /** One connection's whole run. Whatever it draws and whatever the engine replies, it sends the word
      of the loop, waits at the barrier once in every round it gets through, and counts exactly the
      rounds that pay and the conflicts it retried. It stops early only in a round that breaks. */
  method RunWorkerBurst(c: Setting, plans: seq<Plan>)
    returns (sent: seq<Event>, commits: nat, conflicts: nat, waits: nat, panicked: bool)
    requires |plans| == c.rounds && PlansOk(c, plans)
    ensures sent == LoopWord(c, 0, plans)
    ensures commits == Commits(c, plans) && conflicts == Conflicts(c, plans)
    ensures waits == Through(c, plans) && panicked == (waits < c.rounds)
  {
    sent, commits, conflicts, waits, panicked := [], 0, 0, 0, false;
    SoFarFirst(c, plans);
    while waits < c.rounds && !panicked
      invariant waits <= c.rounds && SoFar(c, plans, waits, panicked, sent, commits, conflicts)
      decreases c.rounds - waits, if panicked then 0 else 1
    {
      SoFarStep(c, plans, waits, sent, commits, conflicts);
      PlanAt(c, plans, waits);
      var word, more, paid;
      word, more, paid, panicked := RunRound(c, waits, plans[waits]);
      sent := sent + word + if panicked then [] else [Waited];
      commits, conflicts := commits + (if paid then 1 else 0), conflicts + more;
      waits := if panicked then waits else waits + 1;
    }
    SoFarLast(c, plans, waits, panicked, sent, commits, conflicts);
    sent := if panicked then sent else sent + [Closed];
  }

  // ----- the automaton takes every word of the loop

  function Attempted(x: Control, r: Reply): Control {
    var y := x.(attempt := x.attempt + 1);
    match r
    case BeginError => x.(pc := Panicked)
    case Served => y.(pc := AtBarrier, commits := x.commits + 1)
    case BusyAt(_) => y.(pc := AtBegin)
    case ErrorAt(_) => y.(pc := Panicked)
    case Snapshot => y.(pc := AtBegin, conflicts := x.conflicts + 1)
    case CommitError => y.(pc := Panicked)
  }

  /** What the reply to an attempt does, the attempt being counted already. */
  function Replied(x: Control, r: Reply): Control {
    x.(pc := Attempted(x, r).pc, commits := Attempted(x, r).commits, conflicts := Attempted(x, r).conflicts)
  }

  lemma AttemptedParts(x: Control, body: Reply, r: Reply)
    requires !r.BeginError?
    ensures Replied(Left(Next(x, Begun), BodyOutcome(body)), r) == Attempted(x, r)
  {
  }

  function Left(x: Control, r: Outcome): Control {
    x.(pc := match r case Ok => AtCommit case Locked => AtBegin case Error => Panicked)
  }

  lemma LeadsTwo(c: Setting, x: Control, d: Event, e: Event)
    requires Accepts(c, x, d) && Accepts(c, Next(x, d), e)
    ensures Leads(c, x, [d, e], Next(Next(x, d), e))
  {
    LeadsOne(c, Next(x, d), e);
    assert [d, e][1..] == [e];
  }

  lemma LeadsThree(c: Setting, x: Control, d: Event, e: Event, f: Event)
    requires Accepts(c, x, d) && Accepts(c, Next(x, d), e) && Accepts(c, Next(Next(x, d), e), f)
    ensures Leads(c, x, [d, e, f], Next(Next(Next(x, d), e), f))
  {
    LeadsTwo(c, Next(x, d), e, f);
    assert [d, e, f][1..] == [e, f];
  }

  lemma BodyLeads(c: Setting, x: Control, r: Reply)
    requires x.pc.AtUpdate?
    ensures Leads(c, x, BodyWord(x.account, x.delta, HistoryId(c.w, x.round), r), Left(x, BodyOutcome(r)))
  {
    var d, e := Updated(x.account, x.delta), Inserted(HistoryId(c.w, x.round), x.account, x.delta);
    if !Answer(r, UpdateStmt).Ok? {
      LeadsOne(c, x, Stop(r));
    } else if !Answer(r, InsertStmt).Ok? {
      LeadsTwo(c, x, d, Stop(r));
    } else if !Answer(r, SelectStmt).Ok? {
      LeadsThree(c, x, d, e, Stop(r));
    } else {
      if r.BusyAt? || r.ErrorAt? { OneOfThree(r); }
      LeadsThree(c, x, d, e, Selected(x.account));
    }
  }

  lemma CommitLeads(c: Setting, x: Control, r: Reply)
    requires !r.BeginError? && x.pc == Left(x, BodyOutcome(r)).pc
    ensures Leads(c, x, CommitWord(r), Replied(x, r))
  {
    if !r.BusyAt? && !r.ErrorAt? {
      LeadsOne(c, x, CommitWord(r)[0]);
    }
  }

  lemma AttemptLeads(c: Setting, x: Control, r: Reply)
    requires x.pc.AtBegin? && x.attempt < ATTEMPTS
    ensures Leads(c, x, AttemptWord(x.account, x.delta, HistoryId(c.w, x.round), r), Attempted(x, r))
  {
    if r.BeginError? {
      LeadsOne(c, x, Failed);
    } else {
      var y := Next(x, Begun);
      var body := BodyWord(x.account, x.delta, HistoryId(c.w, x.round), r);
      LeadsOne(c, x, Begun);
      BodyLeads(c, y, r);
      LeadsConcat(c, x, [Begun], y, body, Left(y, BodyOutcome(r)));
      CommitLeads(c, Left(y, BodyOutcome(r)), r);
      AttemptedParts(x, r, r);
      LeadsConcat(c, x, [Begun] + body, Left(y, BodyOutcome(r)), CommitWord(r), Attempted(x, r));
    }
  }

  /** A round's attempts end at the barrier or in a panic, with the counters moved as stated. */
  ghost predicate AfterTries(x: Control, replies: seq<Reply>, y: Control) {
    && y.pc == (if Decision(replies).Served? || Retried(Decision(replies)) then AtBarrier else Panicked)
    && y.round == x.round
    && y.commits == x.commits + (if Decision(replies).Served? then 1 else 0)
    && y.conflicts == x.conflicts + ConflictsIn(replies)
  }

  lemma TriesDecided(c: Setting, x: Control, replies: seq<Reply>)
    requires x.pc.AtBegin? && x.attempt < ATTEMPTS && replies != [] && !Retried(replies[0])
    ensures Leads(c, x, TriesWord(x.account, x.delta, HistoryId(c.w, x.round), replies), Attempted(x, replies[0]))
    ensures AfterTries(x, replies, Attempted(x, replies[0]))
  {
    AttemptLeads(c, x, replies[0]);
    NothingMore(AttemptWord(x.account, x.delta, HistoryId(c.w, x.round), replies[0]));
  }

  lemma NothingMore<T>(s: seq<T>)
    ensures s + [] == s
  {
  }

  lemma TriesGoOn(c: Setting, x: Control, replies: seq<Reply>, y: Control)
    requires x.pc.AtBegin? && x.attempt < ATTEMPTS && replies != [] && Retried(replies[0])
    requires Leads(c, Attempted(x, replies[0]), TriesWord(x.account, x.delta, HistoryId(c.w, x.round), replies[1..]), y)
    requires AfterTries(Attempted(x, replies[0]), replies[1..], y)
    ensures Leads(c, x, TriesWord(x.account, x.delta, HistoryId(c.w, x.round), replies), y) && AfterTries(x, replies, y)
  {
    var id := HistoryId(c.w, x.round);
    AttemptLeads(c, x, replies[0]);
    LeadsConcat(c, x, AttemptWord(x.account, x.delta, id, replies[0]), Attempted(x, replies[0]),
                TriesWord(x.account, x.delta, id, replies[1..]), y);
  }

  lemma {:induction false} TriesLeads(c: Setting, x: Control, replies: seq<Reply>) returns (y: Control)
    requires x.pc.AtBegin? && x.attempt + |replies| == ATTEMPTS
    ensures Leads(c, x, TriesWord(x.account, x.delta, HistoryId(c.w, x.round), replies), y) && AfterTries(x, replies, y)
    decreases |replies|
  {
    if replies == [] {
      LeadsOne(c, x, GaveUp);
      y := Next(x, GaveUp);
    } else if Retried(replies[0]) {
      y := TriesLeads(c, Attempted(x, replies[0]), replies[1..]);
      TriesGoOn(c, x, replies, y);
    } else {
      TriesDecided(c, x, replies);
      y := Attempted(x, replies[0]);
    }
  }

  ghost predicate AfterRound(c: Setting, x: Control, p: Plan, y: Control) {
    && y.pc == (if Breaks(c, p) then Panicked else AtBarrier) && y.round == x.round
    && y.commits == x.commits + RoundCommits(c, p) && y.conflicts == x.conflicts + RoundConflicts(c, p)
  }

  lemma RoundLeads(c: Setting, x: Control, p: Plan) returns (y: Control)
    requires x.pc.AtTop? && x.round < c.rounds && (c.scale > 0 ==> PlanOk(c, p))
    ensures Leads(c, x, RoundWord(c, x.round, p), y) && AfterRound(c, x, p, y)
  {
    if c.scale == 0 {
      LeadsOne(c, x, Failed);
      y := Next(x, Failed);
    } else {
      var d := Drawn(p.account, p.delta);
      LeadsOne(c, x, d);
      y := TriesLeads(c, Next(x, d), p.replies);
      LeadsConcat(c, x, [d], Next(x, d), TriesWord(p.account, p.delta, HistoryId(c.w, x.round), p.replies), y);
    }
  }

  ghost predicate AfterLoop(c: Setting, x: Control, plans: seq<Plan>, y: Control) {
    && y.round == x.round + Through(c, plans)
    && y.pc == (if Through(c, plans) == |plans| then Finished else Panicked)
    && y.commits == x.commits + Commits(c, plans) && y.conflicts == x.conflicts + Conflicts(c, plans)
  }

  lemma RoundThenRest(c: Setting, x: Control, word: seq<Event>, z: Control, rest: seq<Event>, y: Control)
    requires Leads(c, x, word, z) && Accepts(c, z, Waited) && Leads(c, Next(z, Waited), rest, y)
    ensures Leads(c, x, word + ([Waited] + rest), y)
  {
    LeadsOne(c, z, Waited);
    LeadsConcat(c, z, [Waited], Next(z, Waited), rest, y);
    LeadsConcat(c, x, word, z, [Waited] + rest, y);
  }

  lemma LoopBreaks(c: Setting, x: Control, plans: seq<Plan>, z: Control)
    requires plans != [] && Breaks(c, plans[0])
    requires Leads(c, x, RoundWord(c, x.round, plans[0]), z) && AfterRound(c, x, plans[0], z)
    ensures Leads(c, x, LoopWord(c, x.round, plans), z) && AfterLoop(c, x, plans, z)
  {
    NothingMore(RoundWord(c, x.round, plans[0]));
  }

  lemma LoopTurn(c: Setting, round: nat, next: nat, plans: seq<Plan>)
    requires plans != [] && !Breaks(c, plans[0]) && next == round + 1
    ensures LoopWord(c, round, plans) == RoundWord(c, round, plans[0]) + ([Waited] + LoopWord(c, next, plans[1..]))
  {
  }

  lemma LoopCounts(c: Setting, x: Control, plans: seq<Plan>, z: Control, y: Control)
    requires plans != [] && !Breaks(c, plans[0])
    requires AfterRound(c, x, plans[0], z) && AfterLoop(c, Next(z, Waited), plans[1..], y)
    ensures AfterLoop(c, x, plans, y)
  {
  }

  lemma LoopGoesOn(c: Setting, x: Control, plans: seq<Plan>, z: Control, top: Control, y: Control)
    requires plans != [] && !Breaks(c, plans[0]) && z.pc.AtBarrier?
             && top == Next(z, Waited) && top.round == x.round + 1
    requires Leads(c, x, RoundWord(c, x.round, plans[0]), z) && Leads(c, top, LoopWord(c, top.round, plans[1..]), y)
    ensures Leads(c, x, LoopWord(c, x.round, plans), y)
  {
    LoopTurn(c, x.round, top.round, plans);
    RoundThenRest(c, x, RoundWord(c, x.round, plans[0]), z, LoopWord(c, top.round, plans[1..]), y);
  }

  /** Every word of the loop is a word of the automaton, and the client's counters are its counters. */
  lemma {:induction false} LoopLeads(c: Setting, x: Control, plans: seq<Plan>) returns (y: Control)
    requires x.pc.AtTop? && x.round + |plans| == c.rounds && PlansOk(c, plans)
    ensures Leads(c, x, LoopWord(c, x.round, plans), y) && AfterLoop(c, x, plans, y)
    decreases |plans|
  {
    if plans == [] {
      LeadsOne(c, x, Closed);
      y := Next(x, Closed);
    } else {
      var z := RoundLeads(c, x, plans[0]);
      if Breaks(c, plans[0]) {
        LoopBreaks(c, x, plans, z);
        y := z;
      } else {
        var top := Next(z, Waited);
        y := LoopLeads(c, top, plans[1..]);
        LoopCounts(c, x, plans, z, y);
        LoopGoesOn(c, x, plans, z, top, y);
      }
    }
  }

  // ----- every complete word of the automaton is a word of the loop

  lemma NotOver(c: Setting, x: Control, t: seq<Event>, z: Control)
    requires Leads(c, x, t, z) && Ended(z.pc) && !Ended(x.pc)
    ensures t != [] && Accepts(c, x, t[0]) && Leads(c, Next(x, t[0]), t[1..], z) && t == [t[0]] + t[1..]
  {
  }

  lemma Over(c: Setting, x: Control, t: seq<Event>, z: Control)
    requires Leads(c, x, t, z) && Ended(x.pc)
    ensures t == [] && z == x
  {
  }

  /** The statements of one attempt, read off the word. */
  lemma ParseBody(c: Setting, x: Control, t: seq<Event>, z: Control) returns (r: Reply, u: seq<Event>)
    requires x.pc.AtUpdate? && Leads(c, x, t, z) && Ended(z.pc)
    ensures t == BodyWord(x.account, x.delta, HistoryId(c.w, x.round), r) + u
    ensures r.BusyAt? || r.ErrorAt? || r.Served?
    ensures Leads(c, Left(x, BodyOutcome(r)), u, z)
  {
    NotOver(c, x, t, z);
    if t[0].Refused? || t[0].Failed? {
      r, u := if t[0].Refused? then BusyAt(UpdateStmt) else ErrorAt(UpdateStmt), t[1..];
    } else {
      r, u := ParseInsert(c, Next(x, t[0]), t[1..], z);
      BodyFromInsert(x.account, x.delta, HistoryId(c.w, x.round), r, t, u);
    }
  }

  lemma BodyFromInsert(account: int, delta: int, id: int, r: Reply, t: seq<Event>, u: seq<Event>)
    requires t != [] && t[0] == Updated(account, delta) && (r.BusyAt? || r.ErrorAt? ==> !r.at.UpdateStmt?)
    requires t[1..] == InsertWord(account, delta, id, r) + u
    ensures t == BodyWord(account, delta, id, r) + u
  {
    assert t == [t[0]] + t[1..];
  }

  /** The body from the audit append on. */
  function InsertWord(account: int, delta: int, id: int, r: Reply): seq<Event> {
    if r == BusyAt(InsertStmt) || r == ErrorAt(InsertStmt) then [Stop(r)]
    else if r == BusyAt(SelectStmt) || r == ErrorAt(SelectStmt) then [Inserted(id, account, delta), Stop(r)]
    else [Inserted(id, account, delta), Selected(account)]
  }

  lemma ParseInsert(c: Setting, x: Control, t: seq<Event>, z: Control) returns (r: Reply, u: seq<Event>)
    requires x.pc.AtAppend? && Leads(c, x, t, z) && Ended(z.pc)
    ensures t == InsertWord(x.account, x.delta, HistoryId(c.w, x.round), r) + u
    ensures r.Served? || ((r.BusyAt? || r.ErrorAt?) && !r.at.UpdateStmt?)
    ensures Leads(c, Left(x, BodyOutcome(r)), u, z)
  {
    NotOver(c, x, t, z);
    if t[0].Refused? || t[0].Failed? {
      r, u := if t[0].Refused? then BusyAt(InsertStmt) else ErrorAt(InsertStmt), t[1..];
    } else {
      r, u := ParseSelect(c, Next(x, t[0]), t[1..], z);
      Two(t, u);
    }
  }

  lemma Two<T>(t: seq<T>, u: seq<T>)
    requires |t| >= 2 && u == t[1..][1..]
    ensures t == [t[0], t[1..][0]] + u
  {
  }

  lemma ParseSelect(c: Setting, x: Control, t: seq<Event>, z: Control) returns (r: Reply, u: seq<Event>)
    requires x.pc.AtRead? && Leads(c, x, t, z) && Ended(z.pc)
    ensures t != [] && u == t[1..]
    ensures r == BusyAt(SelectStmt) || r == ErrorAt(SelectStmt) || r == Served
    ensures t[0] == if r.Served? then Selected(x.account) else Stop(r)
    ensures Leads(c, Left(x, BodyOutcome(r)), u, z)
  {
    NotOver(c, x, t, z);
    r := if t[0].Refused? then BusyAt(SelectStmt) else if t[0].Failed? then ErrorAt(SelectStmt) else Served;
    u := t[1..];
  }

  /** The reply to COMMIT, when the body was served. */
  lemma ParseCommit(c: Setting, x: Control, t: seq<Event>, z: Control, body: Reply) returns (r: Reply, u: seq<Event>)
    requires (body.BusyAt? || body.ErrorAt? || body.Served?) && x.pc == Left(x, BodyOutcome(body)).pc
    requires Leads(c, x, t, z) && Ended(z.pc)
    ensures !r.BeginError? && BodyOutcome(r) == BodyOutcome(body) && (!body.Served? ==> r == body)
    ensures t == CommitWord(r) + u
    ensures Leads(c, Replied(x, r), u, z)
  {
    if body.Served? {
      NotOver(c, x, t, z);
      r := if t[0].Committed? then Served else if t[0].Conflicted? then Snapshot else CommitError;
      u := t[1..];
    } else {
      r, u := body, t;
      assert [] + t == t;
    }
  }

  lemma SameBody(account: int, delta: int, id: int, r: Reply, body: Reply)
    requires body.BusyAt? || body.ErrorAt? || body.Served?
    requires !r.BeginError? && BodyOutcome(r) == BodyOutcome(body) && (!body.Served? ==> r == body)
    ensures BodyWord(account, delta, id, r) == BodyWord(account, delta, id, body)
  {
    if body.BusyAt? || body.ErrorAt? { OneOfThree(body); }
  }

  lemma AttemptFromParts(account: int, delta: int, id: int, r: Reply, body: Reply,
                         t: seq<Event>, v: seq<Event>, u: seq<Event>)
    requires body.BusyAt? || body.ErrorAt? || body.Served?
    requires !r.BeginError? && BodyOutcome(r) == BodyOutcome(body) && (!body.Served? ==> r == body)
    requires t == [Begun] + (BodyWord(account, delta, id, body) + v) && v == CommitWord(r) + u
    ensures t == AttemptWord(account, delta, id, r) + u
  {
    SameBody(account, delta, id, r, body);
    Regroup([Begun], BodyWord(account, delta, id, r), CommitWord(r), u);
  }

  lemma ParseServed(c: Setting, x: Control, t: seq<Event>, z: Control) returns (r: Reply, u: seq<Event>)
    requires x.pc.AtBegin? && x.attempt < ATTEMPTS && Leads(c, Next(x, Begun), t, z) && Ended(z.pc)
    ensures [Begun] + t == AttemptWord(x.account, x.delta, HistoryId(c.w, x.round), r) + u
    ensures Leads(c, Attempted(x, r), u, z)
  {
    var y := Next(x, Begun);
    var body, v := ParseBody(c, y, t, z);
    r, u := ParseCommit(c, Left(y, BodyOutcome(body)), v, z, body);
    AttemptedParts(x, body, r);
    AttemptFromParts(x.account, x.delta, HistoryId(c.w, x.round), r, body, [Begun] + t, v, u);
  }

  lemma ParseAttempt(c: Setting, x: Control, t: seq<Event>, z: Control) returns (r: Reply, u: seq<Event>)
    requires x.pc.AtBegin? && x.attempt < ATTEMPTS && Leads(c, x, t, z) && Ended(z.pc)
    ensures t == AttemptWord(x.account, x.delta, HistoryId(c.w, x.round), r) + u
    ensures Leads(c, Attempted(x, r), u, z)
  {
    NotOver(c, x, t, z);
    if t[0].Failed? {
      r, u := BeginError, t[1..];
    } else {
      r, u := ParseServed(c, x, t[1..], z);
    }
  }

  lemma Regroup<T>(a: seq<T>, b: seq<T>, d: seq<T>, e: seq<T>)
    ensures a + (b + (d + e)) == a + b + d + e
  {
  }

  lemma TriesFromParts(account: int, delta: int, id: int, r: Reply, rs: seq<Reply>,
                       t: seq<Event>, v: seq<Event>, u: seq<Event>)
    requires t == AttemptWord(account, delta, id, r) + v
    requires v == (if Retried(r) then TriesWord(account, delta, id, rs) else []) + u
    ensures t == TriesWord(account, delta, id, [r] + rs) + u
  {
    assert ([r] + rs)[1..] == rs;
    SeqAssoc(AttemptWord(account, delta, id, r), if Retried(r) then TriesWord(account, delta, id, rs) else [], u);
  }

  lemma SeqAssoc<T>(a: seq<T>, b: seq<T>, d: seq<T>)
    ensures a + (b + d) == (a + b) + d
  {
  }

  lemma AfterTriesOn(x: Control, r: Reply, rs: seq<Reply>, y: Control)
    requires if Retried(r) then AfterTries(Attempted(x, r), rs, y) else y == Attempted(x, r)
    ensures AfterTries(x, [r] + rs, y)
  {
    assert ([r] + rs)[1..] == rs;
  }

  lemma {:induction false} ParseTries(c: Setting, x: Control, t: seq<Event>, z: Control)
    returns (replies: seq<Reply>, u: seq<Event>, y: Control)
    requires x.pc.AtBegin? && x.attempt <= ATTEMPTS && Leads(c, x, t, z) && Ended(z.pc)
    ensures x.attempt + |replies| == ATTEMPTS
    ensures t == TriesWord(x.account, x.delta, HistoryId(c.w, x.round), replies) + u
    ensures AfterTries(x, replies, y) && Leads(c, y, u, z)
    decreases ATTEMPTS - x.attempt
  {
    if x.attempt == ATTEMPTS {
      NotOver(c, x, t, z);
      replies, u, y := [], t[1..], Next(x, GaveUp);
    } else {
      var r, v := ParseAttempt(c, x, t, z);
      var rs;
      if Retried(r) {
        rs, u, y := ParseTries(c, Attempted(x, r), v, z);
      } else {
        rs, u, y := seq(ATTEMPTS - x.attempt - 1, _ => Served), v, Attempted(x, r);
      }
      replies := [r] + rs;
      TriesFromParts(x.account, x.delta, HistoryId(c.w, x.round), r, rs, t, v, u);
      AfterTriesOn(x, r, rs, y);
    }
  }

  lemma ParseRound(c: Setting, x: Control, t: seq<Event>, z: Control) returns (p: Plan, u: seq<Event>, y: Control)
    requires x.pc.AtTop? && x.round < c.rounds && Leads(c, x, t, z) && Ended(z.pc)
    ensures c.scale > 0 ==> PlanOk(c, p)
    ensures t == RoundWord(c, x.round, p) + u && AfterRound(c, x, p, y) && Leads(c, y, u, z)
  {
    NotOver(c, x, t, z);
    if c.scale == 0 {
      p, u, y := Plan(0, 0, []), t[1..], Next(x, Failed);
    } else {
      var d := t[0];
      var rs;
      rs, u, y := ParseTries(c, Next(x, d), t[1..], z);
      p := Plan(d.account, d.delta, rs);
      SeqAssoc([d], TriesWord(d.account, d.delta, HistoryId(c.w, x.round), rs), u);
    }
  }

  lemma LoopStops(c: Setting, round: nat, p: Plan, rest: seq<Plan>, t: seq<Event>)
    requires t == RoundWord(c, round, p) + [] && Breaks(c, p)
    ensures t == LoopWord(c, round, [p] + rest)
  {
  }

  lemma LoopOn(c: Setting, round: nat, next: nat, p: Plan, rest: seq<Plan>, t: seq<Event>, v: seq<Event>)
    requires t == RoundWord(c, round, p) + ([Waited] + v)
             && !Breaks(c, p) && next == round + 1 && v == LoopWord(c, next, rest)
    ensures t == LoopWord(c, round, [p] + rest)
  {
    LoopTurn(c, round, next, [p] + rest);
    assert ([p] + rest)[1..] == rest;
  }

  lemma ParseWait(c: Setting, x: Control, t: seq<Event>, z: Control) returns (v: seq<Event>)
    requires x.pc.AtBarrier? && Leads(c, x, t, z) && Ended(z.pc)
    ensures t == [Waited] + v && Leads(c, Next(x, Waited), v, z)
  {
    NotOver(c, x, t, z);
    v := t[1..];
  }

  lemma PlansFromParts(c: Setting, p: Plan, rest: seq<Plan>)
    requires (c.scale > 0 ==> PlanOk(c, p)) && PlansOk(c, rest)
    ensures PlansOk(c, [p] + rest)
  {
  }

  /** Every complete word of the automaton is the word of the loop for some draws and replies. */
  lemma {:induction false} ParseLoop(c: Setting, x: Control, t: seq<Event>, z: Control) returns (plans: seq<Plan>)
    requires x.pc.AtTop? && x.round <= c.rounds && Leads(c, x, t, z) && Ended(z.pc)
    ensures x.round + |plans| == c.rounds && PlansOk(c, plans)
    ensures t == LoopWord(c, x.round, plans)
    decreases c.rounds - x.round
  {
    if x.round == c.rounds {
      NotOver(c, x, t, z);
      plans := [];
      Over(c, Next(x, t[0]), t[1..], z);
    } else {
      var p, u, y := ParseRound(c, x, t, z);
      var rest: seq<Plan>;
      if Breaks(c, p) {
        Over(c, y, u, z);
        rest := seq(c.rounds - x.round - 1, _ => p);
        LoopStops(c, x.round, p, rest, t);
      } else {
        var v := ParseWait(c, y, u, z);
        var top := Next(y, Waited);
        assert top.round == x.round + 1;
        rest := ParseLoop(c, top, v, z);
        LoopOn(c, x.round, top.round, p, rest, t, v);
      }
      plans := [p] + rest;
      PlansFromParts(c, p, rest);
    }
  }

  ghost predicate IsLoopWord(c: Setting, t: seq<Event>) {
    exists plans: seq<Plan> :: |plans| == c.rounds && PlansOk(c, plans) && t == LoopWord(c, 0, plans)
  }

  ghost predicate IsCompleteWord(c: Setting, t: seq<Event>) {
    exists z: Control :: Leads(c, Initially(), t, z) && Ended(z.pc)
  }

  /** The loop and the automaton have the same complete words. */
  lemma LoopIsAutomaton(c: Setting, t: seq<Event>)
    ensures IsLoopWord(c, t) <==> IsCompleteWord(c, t)
  {
    if IsLoopWord(c, t) {
      var plans: seq<Plan> :| |plans| == c.rounds && PlansOk(c, plans) && t == LoopWord(c, 0, plans);
      var z := LoopLeads(c, Initially(), plans);
    }
    if IsCompleteWord(c, t) {
      var z: Control :| Leads(c, Initially(), t, z) && Ended(z.pc);
      var plans := ParseLoop(c, Initially(), t, z);
    }
  }

  // ----- every word of the automaton can be completed

  predicate ControlOk(c: Setting, x: Control) {
    && x.round <= c.rounds && x.attempt <= ATTEMPTS && !x.pc.Waiting?
    && (x.pc.AtBegin? || InBody(x.pc) || x.pc.AtCommit? || x.pc.AtBarrier? ==> x.round < c.rounds && c.scale > 0)
  }

  lemma {:induction false} ControlKept(c: Setting, x: Control, t: seq<Event>, y: Control)
    requires ControlOk(c, x) && Leads(c, x, t, y)
    ensures ControlOk(c, y)
    decreases |t|
  {
    if t == [] {
    } else {
      ControlKept(c, Next(x, t[0]), t[1..], y);
    }
  }

  lemma CompleteTop(c: Setting, x: Control) returns (u: seq<Event>, z: Control)
    requires ControlOk(c, x) && x.pc.AtTop?
    ensures Leads(c, x, u, z) && Ended(z.pc)
  {
    if x.round == c.rounds {
      LeadsOne(c, x, Closed);
      u, z := [Closed], Next(x, Closed);
    } else if c.scale == 0 {
      LeadsOne(c, x, Failed);
      u, z := [Failed], Next(x, Failed);
    } else {
      LeadsTwo(c, x, Drawn(0, 0), Failed);
      u, z := [Drawn(0, 0), Failed], Next(Next(x, Drawn(0, 0)), Failed);
    }
  }

  lemma CompleteBarrier(c: Setting, x: Control) returns (u: seq<Event>, z: Control)
    requires ControlOk(c, x) && x.pc.AtBarrier?
    ensures Leads(c, x, u, z) && Ended(z.pc)
  {
    var v;
    LeadsOne(c, x, Waited);
    v, z := CompleteTop(c, Next(x, Waited));
    u := [Waited] + v;
    LeadsConcat(c, x, [Waited], Next(x, Waited), v, z);
  }

  lemma Complete(c: Setting, x: Control) returns (u: seq<Event>, z: Control)
    requires ControlOk(c, x)
    ensures Leads(c, x, u, z) && Ended(z.pc)
  {
    if Ended(x.pc) {
      u, z := [], x;
    } else if x.pc.AtTop? {
      u, z := CompleteTop(c, x);
    } else if x.pc.AtBarrier? {
      u, z := CompleteBarrier(c, x);
    } else if x.pc.AtBegin? && x.attempt == ATTEMPTS {
      var v;
      LeadsOne(c, x, GaveUp);
      v, z := CompleteBarrier(c, Next(x, GaveUp));
      u := [GaveUp] + v;
      LeadsConcat(c, x, [GaveUp], Next(x, GaveUp), v, z);
    } else {
      LeadsOne(c, x, Failed);
      u, z := [Failed], Next(x, Failed);
    }
  }

  // ----- every interleaved run, seen from one worker

  /** A worker waiting at the barrier has sent everything of its round. */
  function ControlOf(x: Worker): Control {
    if x.pc.Waiting?
    then Control(AtTop, x.round + 1, x.attempt, x.account, x.delta, x.commits, x.conflicts)
    else Control(x.pc, x.round, x.attempt, x.account, x.delta, x.commits, x.conflicts)
  }

  function SettingOf(c: Config, w: nat): Setting { Setting(w, c.rounds, c.scale) }

  /** What worker a.w sends in step a. Waking up sends nothing. */
  function Sends(c: Config, s: State, a: Action): seq<Event>
    requires Enabled(c, s, a)
  {
    var x := s.workers[a.w];
    if a.Wake? then []
    else if NextWorker(c, s, a).pc.Panicked? then [Failed]
    else match a
         case Draw(_, account, delta) => [Drawn(account, delta)]
         case BeginTxn(_) => [Begun]
         case Update(_, _) => [Updated(x.account, x.delta)]
         case Append(w, _) => [Inserted(HistoryId(w, x.round), x.account, x.delta)]
         case Read(_, _) => [Selected(x.account)]
         case Refuse(_) => [Refused]
         case CommitOk(_) => [Committed]
         case Conflict(_) => [Conflicted]
         case GiveUp(_) => [GaveUp]
         case Arrive(_) => [Waited]
         case _ => [Closed]
  }

  lemma StepSends(c: Config, s: State, a: Action)
    requires Enabled(c, s, a)
    ensures Leads(SettingOf(c, a.w), ControlOf(s.workers[a.w]), Sends(c, s, a), ControlOf(NextWorker(c, s, a)))
  {
    if a.Wake? {
    } else {
      LeadsOne(SettingOf(c, a.w), ControlOf(s.workers[a.w]), Sends(c, s, a)[0]);
    }
  }

  function SentBy(c: Config, ss: seq<State>, acts: seq<Action>, w: nat, i: nat): seq<Event>
    requires i <= |acts| && |ss| == |acts| + 1
    requires forall j :: 0 <= j < |acts| ==> Enabled(c, ss[j], acts[j])
  {
    if i == 0 then []
    else SentBy(c, ss, acts, w, i - 1) + if acts[i - 1].w == w then Sends(c, ss[i - 1], acts[i - 1]) else []
  }

  /** In every run, what a worker has sent is a word of the automaton and leads to that worker's
      control state, counters included. */
  lemma {:induction false} RunSends(c: Config, ss: seq<State>, acts: seq<Action>, w: nat, i: nat)
    requires IsRun(c, ss, acts) && i <= |acts| && w < c.conns
    ensures |ss[i].workers| == c.conns
    ensures Leads(SettingOf(c, w), Initially(), SentBy(c, ss, acts, w, i), ControlOf(ss[i].workers[w]))
  {
    if i == 0 {
    } else {
      RunSends(c, ss, acts, w, i - 1);
      var s, a := ss[i - 1], acts[i - 1];
      var before := SentBy(c, ss, acts, w, i - 1);
      if a.w == w {
        StepSends(c, s, a);
        LeadsConcat(SettingOf(c, w), Initially(), before, ControlOf(s.workers[w]),
                    Sends(c, s, a), ControlOf(ss[i].workers[w]));
      } else {
        assert before + [] == before;
      }
    }
  }

  /** Each worker of every interleaved run is a run of the loop: at any moment it has sent a beginning
      of the loop's word for some draws and replies, and the whole word once it has ended. */
  lemma EachWorkerLoops(c: Config, ss: seq<State>, acts: seq<Action>, w: nat, i: nat)
    returns (plans: seq<Plan>)
    requires IsRun(c, ss, acts) && i <= |acts| && w < c.conns
    ensures |ss[i].workers| == c.conns && |plans| == c.rounds && PlansOk(SettingOf(c, w), plans)
    ensures SentBy(c, ss, acts, w, i) <= LoopWord(SettingOf(c, w), 0, plans)
    ensures Ended(ss[i].workers[w].pc) ==> SentBy(c, ss, acts, w, i) == LoopWord(SettingOf(c, w), 0, plans)
  {
    RunSends(c, ss, acts, w, i);
    var d, t, x := SettingOf(c, w), SentBy(c, ss, acts, w, i), ControlOf(ss[i].workers[w]);
    ControlKept(d, Initially(), t, x);
    var u, z := Complete(d, x);
    LeadsConcat(d, Initially(), t, x, u, z);
    plans := ParseLoop(d, Initially(), t + u, z);
    if Ended(x.pc) {
      Over(d, x, u, z);
    }
  }
}
