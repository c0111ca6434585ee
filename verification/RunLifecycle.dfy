/**
 * The life of one run (src/app/run/repository.py, executor.py, approval.py, reaper.py): any number of deliveries,
 * cancels, approval sweeps and orphan sweeps race on one row through conditional updates, and whoever's update hits
 * appends the event.
 */
module RunLifecycle {

  datatype Status = Queued | Running | WaitingApproval | Succeeded | Failed | Cancelled

  predicate Terminal(status: Status) {
    status.Succeeded? || status.Failed? || status.Cancelled?
  }

  datatype Tokens = Tokens(cacheRead: nat, uncached: nat, output: nat)

  const NO_TOKENS := Tokens(0, 0, 0)

  function Plus(a: Tokens, b: Tokens): Tokens {
    Tokens(a.cacheRead + b.cacheRead, a.uncached + b.uncached, a.output + b.output)
  }

  /** `ended` is whether ended_at is set; `jobs` counts the memory jobs written with this run. */
  datatype Row = Row(status: Status, tokens: Tokens, ended: bool, jobs: nat)

  const NEW_ROW := Row(Queued, NO_TOKENS, false, 0)

  // ---- The conditional updates ----

  datatype Update =
    | StartFirst
    | StartAgain
    | Succeed(tokens: Tokens, job: bool)
    | Fail
    | Cancel(tokens: Tokens)
    | WaitApproval(tokens: Tokens)
    | Resume

  /** The WHERE clause. */
  predicate Hits(row: Row, u: Update) {
    match u
    case StartFirst => row.status.Queued?
    case StartAgain => row.status.Running? || row.status.WaitingApproval?
    case Resume => row.status.WaitingApproval?
    case _ => row.status.Queued? || row.status.Running? || row.status.WaitingApproval?
  }

  /** Tokens that a hit adds to the row. */
  function Charge(u: Update): Tokens {
    match u
    case Succeed(tokens, _) => tokens
    case Cancel(tokens) => tokens
    case WaitApproval(tokens) => tokens
    case _ => NO_TOKENS
  }

  /** The SET clause. */
  function Written(row: Row, u: Update): Row {
    match u
    case StartFirst => row.(status := Running)
    case StartAgain => row.(status := Running)
    case Succeed(tokens, job) =>
      Row(Succeeded, Plus(row.tokens, tokens), true, row.jobs + if job then 1 else 0)
    case Fail => row.(status := Failed, ended := true)
    case Cancel(tokens) => row.(status := Cancelled, tokens := Plus(row.tokens, tokens), ended := true)
    case WaitApproval(tokens) => row.(status := WaitingApproval, tokens := Plus(row.tokens, tokens))
    case Resume => row.(status := Queued, ended := false)
  }

  function Updated(row: Row, u: Update): Row {
    if Hits(row, u) then Written(row, u) else row
  }

  // ---- Events ----

  datatype Event = RunStarted(resumed: bool) | Progress | Interrupt | RunFinished | RunFailed | RunCancelled

  predicate TerminalEvent(e: Event) {
    e.RunFinished? || e.RunFailed? || e.RunCancelled?
  }

  function EventFor(status: Status): Event
    requires Terminal(status)
  {
    match status
    case Succeeded => RunFinished
    case Failed => RunFailed
    case Cancelled => RunCancelled
  }

  // ---- The racing actors, one program counter each ----

  datatype Actor =
    | Checking(decided: bool)
    | Stopping(tokens: Tokens)
    | Starting(decided: bool)
    | StartingAgain(decided: bool)
    | Announcing(resumed: bool)
    | Acquiring
    | Streaming(tokens: Tokens)
    | Suspending(tokens: Tokens)
    | Succeeding(tokens: Tokens, job: bool)
    | Failing
    | Emitting(event: Event)
    | ListingExpired
    | ListingOrphans
    | Approving
    | Done

  /** How an actor comes into being: a delivery, a teacher's cancel, the two sweeps, or an approval. */
  predicate Fresh(a: Actor) {
    a.Checking? || a == Stopping(NO_TOKENS) || a.ListingExpired? || a.ListingOrphans? || a.Approving?
  }

  datatype Move =
    | Look(raised: bool, threadActive: bool)
    | UpdateRow
    | Append
    | AppendFails(caught: bool)
    | Acquire(ready: bool)
    | Chunk(usage: Tokens)
    | NoticeCancel(usage: Tokens)
    | Raise
    | StreamEnds(pending: bool, job: bool)
    | List(inFlight: bool)

  datatype Step = Spawn(id: nat, actor: Actor) | Act(id: nat, move: Move) | Crash(id: nat)

  /** A conditional update that an actor tried, and whether it hit. */
  datatype Call = Call(actor: nat, update: Update, hit: bool)

  /** Where the run's one terminal event is: owed by an actor, in the log, or gone with a crash. */
  datatype Place = NotYet | Owed(id: nat) | Logged(index: nat) | Lost

  datatype State = State(row: Row, log: seq<Event>, actors: map<nat, Actor>, calls: seq<Call>, place: Place)

  const INITIAL := State(NEW_ROW, [], map[], [], NotYet)

  /** The update an actor is about to try. */
  predicate Updating(a: Actor) {
    a.Stopping? || a.Starting? || a.StartingAgain? || a.Suspending? || a.Succeeding? || a.Failing? || a.Approving?
  }

  function UpdateOf(a: Actor): Update
    requires Updating(a)
  {
    match a
    case Stopping(tokens) => Cancel(tokens)
    case Starting(_) => StartFirst
    case StartingAgain(_) => StartAgain
    case Suspending(tokens) => WaitApproval(tokens)
    case Succeeding(tokens, job) => Succeed(tokens, job)
    case Failing => Fail
    case Approving => Resume
  }

  /** Where the actor goes once it knows whether its update hit. */
  function AfterUpdate(a: Actor, hit: bool): Actor
    requires Updating(a)
  {
    match a
    case Stopping(_) => if hit then Emitting(RunCancelled) else Done
    case Starting(decided) => if hit then Announcing(decided) else StartingAgain(decided)
    case StartingAgain(_) => if hit then Announcing(true) else Done
    case Suspending(_) => if hit then Emitting(Interrupt) else Done
    case Succeeding(_, _) => if hit then Emitting(RunFinished) else Done
    case Failing => if hit then Emitting(RunFailed) else Done
    case Approving => Done
  }

  function PlaceAfterUpdate(s: State, id: nat, a: Actor): Place
    requires Updating(a)
  {
    if Hits(s.row, UpdateOf(a)) && Terminal(Updated(s.row, UpdateOf(a)).status) then Owed(id) else s.place
  }

  function TryUpdate(s: State, id: nat): State
    requires id in s.actors && Updating(s.actors[id])
  {
    var a := s.actors[id];
    var u := UpdateOf(a);
    s.(row := Updated(s.row, u),
       actors := s.actors[id := AfterUpdate(a, Hits(s.row, u))],
       calls := s.calls + [Call(id, u, Hits(s.row, u))],
       place := PlaceAfterUpdate(s, id, a))
  }

  function Goto(s: State, id: nat, a: Actor): State {
    s.(actors := s.actors[id := a])
  }

  function Emit(s: State, id: nat, e: Event, next: Actor): State {
    s.(log := s.log + [e], actors := s.actors[id := next],
       place := if s.place == Owed(id) then Logged(|s.log|) else s.place)
  }

  /** The debt of an actor that will never append its event. */
  function Forget(s: State, id: nat): Place {
    if s.place == Owed(id) then Lost else s.place
  }

  function Moved(s: State, id: nat, move: Move): State
    requires id in s.actors
  {
    var a := s.actors[id];
    match (a, move)
    case (Checking(decided), Look(raised, active)) =>
      Goto(s, id, if raised || !active then Stopping(NO_TOKENS) else Starting(decided))
    case (Announcing(resumed), Append) => Emit(s, id, RunStarted(resumed), Acquiring)
    case (Announcing(_), AppendFails(_)) => Goto(s, id, Done)
    case (Acquiring, Acquire(ready)) =>
      if ready then Emit(s, id, Progress, Streaming(NO_TOKENS)) else Goto(s, id, Failing)
    case (Streaming(tokens), Chunk(usage)) => Emit(s, id, Progress, Streaming(Plus(tokens, usage)))
    case (Streaming(tokens), NoticeCancel(usage)) => Goto(s, id, Stopping(Plus(tokens, usage)))
    case (Streaming(_), Raise) => Goto(s, id, Failing)
    case (Streaming(tokens), StreamEnds(pending, job)) =>
      Goto(s, id, if pending then Suspending(tokens) else Succeeding(tokens, job))
    case (Emitting(e), Append) => Emit(s, id, e, Done)
    case (Emitting(_), AppendFails(caught)) =>
      s.(actors := s.actors[id := if caught then Failing else Done], place := Forget(s, id))
    case (ListingExpired, List(_)) => Goto(s, id, if s.row.status.WaitingApproval? then Stopping(NO_TOKENS) else Done)
    case (ListingOrphans, List(inFlight)) =>
      Goto(s, id, if (s.row.status.Queued? || s.row.status.Running?) && !inFlight then Failing else Done)
    case (_, UpdateRow) => if Updating(a) then TryUpdate(s, id) else s
    case _ => s
  }

  /** Steps that do not apply leave the state alone. */
  function Next(s: State, step: Step): State {
    match step
    case Spawn(id, a) => if id !in s.actors && Fresh(a) then Goto(s, id, a) else s
    case Act(id, move) => if id in s.actors then Moved(s, id, move) else s
    case Crash(id) => if id in s.actors then s.(actors := s.actors[id := Done], place := Forget(s, id)) else s
  }

  function Run(s: State, steps: seq<Step>): State
    decreases |steps|
  {
    if steps == [] then s else Next(Run(s, steps[..|steps| - 1]), steps[|steps| - 1])
  }

  // ---- The invariant ----

  ghost predicate LogAgrees(s: State) {
    && (forall i :: 0 <= i < |s.log| ==>
          (TerminalEvent(s.log[i]) <==> s.place == Logged(i)))
    && (s.place.Logged? ==>
          && s.place.index < |s.log| && Terminal(s.row.status)
          && s.log[s.place.index] == EventFor(s.row.status))
  }

  ghost predicate DebtAgrees(s: State) {
    && (forall id :: id in s.actors && s.actors[id].Emitting? && TerminalEvent(s.actors[id].event) ==>
          s.place == Owed(id))
    && (s.place.Owed? ==>
          && Terminal(s.row.status)
          && s.place.id in s.actors
          && s.actors[s.place.id] == Emitting(EventFor(s.row.status)))
  }

  ghost predicate Inv(s: State) {
    && (s.row.ended <==> Terminal(s.row.status))
    && (s.place.NotYet? <==> !Terminal(s.row.status))
    && LogAgrees(s)
    && DebtAgrees(s)
  }

  lemma UpdateKeepsInv(s: State, id: nat)
    requires Inv(s) && id in s.actors && Updating(s.actors[id])
    ensures Inv(TryUpdate(s, id))
  {}

  lemma MovedKeepsInv(s: State, id: nat, move: Move)
    requires Inv(s) && id in s.actors
    ensures Inv(Moved(s, id, move))
  {
    if move.UpdateRow? {
      if Updating(s.actors[id]) {
        UpdateKeepsInv(s, id);
      }
    } else if move.Append? || move.Acquire? || move.Chunk? {
      SpeakingKeepsInv(s, id, move);
    } else {
      TurningKeepsInv(s, id, move);
    }
  }

  /** Moves that append to the log. */
  lemma SpeakingKeepsInv(s: State, id: nat, move: Move)
    requires Inv(s) && id in s.actors && (move.Append? || move.Acquire? || move.Chunk?)
    ensures Inv(Moved(s, id, move))
  {}

  /** Moves that only change what the actor does next. */
  lemma TurningKeepsInv(s: State, id: nat, move: Move)
    requires Inv(s) && id in s.actors && !move.UpdateRow? && !move.Append? && !move.Acquire? && !move.Chunk?
    ensures Inv(Moved(s, id, move))
  {}

  lemma NextKeepsInv(s: State, step: Step)
    requires Inv(s)
    ensures Inv(Next(s, step))
  {
    match step
    case Act(id, move) => if id in s.actors { MovedKeepsInv(s, id, move); }
    case _ =>
  }

  lemma {:induction false} RunKeepsInv(steps: seq<Step>)
    ensures Inv(Run(INITIAL, steps))
  {
    if steps == [] {
    } else {
      RunKeepsInv(steps[..|steps| - 1]);
      NextKeepsInv(Run(INITIAL, steps[..|steps| - 1]), steps[|steps| - 1]);
    }
  }

  /**
   * Under every interleaving and every crash: at most one terminal event is ever appended, only once the row is
   * terminal, and its kind is the row's status. A terminal row's event is in the log, owed by one actor, or lost.
   */
  lemma SingleOutcome(steps: seq<Step>)
    ensures var s := Run(INITIAL, steps);
            && (forall i, j :: 0 <= i < j < |s.log| ==> !(TerminalEvent(s.log[i]) && TerminalEvent(s.log[j])))
            && (forall i :: 0 <= i < |s.log| && TerminalEvent(s.log[i])
                  ==> Terminal(s.row.status) && s.log[i] == EventFor(s.row.status))
            && (s.row.ended <==> Terminal(s.row.status))
            && (Terminal(s.row.status) <==> s.place.Logged? || s.place.Owed? || s.place.Lost?)
  {
    RunKeepsInv(steps);
  }

  // ---- Nothing moves a terminal row ----

  lemma NextAbsorbs(s: State, step: Step)
    requires Terminal(s.row.status)
    ensures Next(s, step).row == s.row
  {}

  lemma {:induction false} TerminalIsAbsorbing(s: State, steps: seq<Step>)
    requires Terminal(s.row.status)
    ensures Run(s, steps).row == s.row
  {
    if steps == [] {
    } else {
      TerminalIsAbsorbing(s, steps[..|steps| - 1]);
      NextAbsorbs(Run(s, steps[..|steps| - 1]), steps[|steps| - 1]);
    }
  }

  /** Neither a crash nor a failed append. */
  predicate Clean(step: Step) {
    !step.Crash? && !(step.Act? && step.move.AppendFails?)
  }

  lemma NextLosesNothing(s: State, step: Step)
    requires Clean(step) && !s.place.Lost?
    ensures !Next(s, step).place.Lost?
  {}

  lemma {:induction false} NeverLost(steps: seq<Step>)
    requires forall i :: 0 <= i < |steps| ==> Clean(steps[i])
    ensures !Run(INITIAL, steps).place.Lost?
  {
    if steps == [] {
    } else {
      NeverLost(steps[..|steps| - 1]);
      NextLosesNothing(Run(INITIAL, steps[..|steps| - 1]), steps[|steps| - 1]);
    }
  }

  /**
   * Without crashes and failed appends, a terminal row's event is in the log once nobody is emitting; until then one
   * actor is about to append it.
   */
  lemma NothingLost(steps: seq<Step>)
    requires forall i :: 0 <= i < |steps| ==> Clean(steps[i])
    ensures var s := Run(INITIAL, steps);
            Terminal(s.row.status) ==>
              || EventFor(s.row.status) in s.log
              || exists id :: id in s.actors && s.actors[id] == Emitting(EventFor(s.row.status))
    ensures var s := Run(INITIAL, steps);
            Terminal(s.row.status) && (forall id :: id in s.actors ==> !s.actors[id].Emitting?) ==>
              EventFor(s.row.status) in s.log
  {
    RunKeepsInv(steps);
    NeverLost(steps);
  }

  // ---- Accounting ----

  /** Over the calls that hit: what they charged, and how many wrote a memory job, started first, or resumed. */
  datatype Totals = Totals(charged: Tokens, jobs: nat, firsts: nat, resumes: nat)

  function Counted(t: Totals, c: Call): Totals {
    if !c.hit then t
    else
      var spent := Charge(c.update);
      Totals(Tokens(t.charged.cacheRead + spent.cacheRead, t.charged.uncached + spent.uncached,
                    t.charged.output + spent.output),
             t.jobs + if c.update.Succeed? && c.update.job then 1 else 0,
             t.firsts + if c.update.StartFirst? then 1 else 0, t.resumes + if c.update.Resume? then 1 else 0)
  }

  function TotalsOf(calls: seq<Call>): Totals {
    if calls == [] then Totals(NO_TOKENS, 0, 0, 0)
    else Counted(TotalsOf(calls[..|calls| - 1]), calls[|calls| - 1])
  }

  predicate Balanced(row: Row, t: Totals) {
    && row.tokens == t.charged
    && row.jobs == t.jobs <= 1
    && (t.jobs == 1 ==> row.status.Succeeded?)
    && t.firsts + (if row.status.Queued? then 1 else 0) <= 1 + t.resumes
  }

  ghost predicate Accounts(row: Row, calls: seq<Call>) {
    Balanced(row, TotalsOf(calls))
  }

  lemma UpdateKeepsBalance(row: Row, actor: nat, u: Update, t: Totals)
    requires Balanced(row, t)
    ensures Balanced(Updated(row, u), Counted(t, Call(actor, u, Hits(row, u))))
  {}

  lemma CallKeepsAccounts(row: Row, calls: seq<Call>, actor: nat, u: Update)
    requires Accounts(row, calls)
    ensures Accounts(Updated(row, u), calls + [Call(actor, u, Hits(row, u))])
  {
    var c := Call(actor, u, Hits(row, u));
    assert (calls + [c])[..|calls|] == calls;
    UpdateKeepsBalance(row, actor, u, TotalsOf(calls));
  }

  lemma OneCall(s: State, step: Step)
    requires step.Act? && step.id in s.actors && step.move.UpdateRow? && Updating(s.actors[step.id])
    ensures var u := UpdateOf(s.actors[step.id]);
            && Next(s, step).row == Updated(s.row, u)
            && Next(s, step).calls == s.calls + [Call(step.id, u, Hits(s.row, u))]
  {}

  lemma NoCall(s: State, step: Step)
    requires !(step.Act? && step.id in s.actors && step.move.UpdateRow? && Updating(s.actors[step.id]))
    ensures Next(s, step).row == s.row && Next(s, step).calls == s.calls
  {}

  lemma NextKeepsAccounts(s: State, step: Step)
    requires Accounts(s.row, s.calls)
    ensures Accounts(Next(s, step).row, Next(s, step).calls)
  {
    if step.Act? && step.id in s.actors && step.move.UpdateRow? && Updating(s.actors[step.id]) {
      var u := UpdateOf(s.actors[step.id]);
      OneCall(s, step);
      CallKeepsAccounts(s.row, s.calls, step.id, u);
    } else {
      NoCall(s, step);
    }
  }

  /**
   * In every reachable state the counters are the sum over exactly the suspends, successes and cancels that hit; at
   * most one memory job exists, and only with success; FIRST is answered at most once plus once per resume.
   */
  lemma {:induction false} RunAccounting(steps: seq<Step>)
    ensures Accounts(Run(INITIAL, steps).row, Run(INITIAL, steps).calls)
  {
    if steps == [] {
    } else {
      RunAccounting(steps[..|steps| - 1]);
      NextKeepsAccounts(Run(INITIAL, steps[..|steps| - 1]), steps[|steps| - 1]);
    }
  }

  // ---- What the protocol does not promise ----

  lemma RunLast(s: State, steps: seq<Step>, step: Step)
    ensures Run(s, steps + [step]) == Next(Run(s, steps), step)
  {}

  /** A worker still streaming appends after the teacher's cancel: the terminal event need not be the last one. */
  lemma TerminalEventNeedNotBeLast() returns (steps: seq<Step>)
    ensures var log := Run(INITIAL, steps).log;
            exists i :: 0 <= i < |log| - 1 && TerminalEvent(log[i])
  {
    var before := CancelledRun();
    steps := before + [Act(0, Append)];
    RunLast(INITIAL, before, Act(0, Append));
    assert Run(INITIAL, steps).log == [RunCancelled, RunStarted(false)];
    assert TerminalEvent(Run(INITIAL, steps).log[0]);
  }

  /** A cancel that gets in between, and appends its event. */
  lemma CancelledRun() returns (steps: seq<Step>)
    ensures Run(INITIAL, steps).log == [RunCancelled]
    ensures Run(INITIAL, steps).actors == map[0 := Announcing(false), 1 := Done]
  {
    var s0: seq<Step> := [Spawn(0, Checking(false)), Act(0, Look(false, true)), Act(0, UpdateRow)];
    AnnouncingRun();
    CancelHits(Run(INITIAL, s0));
    var s1 := s0 + [Spawn(1, Stopping(NO_TOKENS))];
    var s2 := s1 + [Act(1, UpdateRow)];
    steps := s2 + [Act(1, Append)];
    RunLast(INITIAL, s0, Spawn(1, Stopping(NO_TOKENS)));
    RunLast(INITIAL, s1, Act(1, UpdateRow));
    RunLast(INITIAL, s2, Act(1, Append));
  }

  lemma CancelHits(s: State)
    requires s.actors == map[0 := Announcing(false)] && s.row.status.Running? && s.log == []
    ensures var t := Next(Next(Next(s, Spawn(1, Stopping(NO_TOKENS))), Act(1, UpdateRow)), Act(1, Append));
            t.log == [RunCancelled] && t.actors == map[0 := Announcing(false), 1 := Done]
  {
    var spawned := Next(s, Spawn(1, Stopping(NO_TOKENS)));
    assert spawned.actors == map[0 := Announcing(false), 1 := Stopping(NO_TOKENS)];
    var hit := Next(spawned, Act(1, UpdateRow));
    assert hit.actors == map[0 := Announcing(false), 1 := Emitting(RunCancelled)] && hit.log == [];
  }

  /** A delivery up to the point where it is about to announce the run. */
  lemma AnnouncingRun()
    ensures var s := Run(INITIAL, [Spawn(0, Checking(false)), Act(0, Look(false, true)), Act(0, UpdateRow)]);
            s.actors == map[0 := Announcing(false)] && s.row.status.Running? && s.log == []
  {
    var s0: seq<Step> := [];
    var s1: seq<Step> := [Spawn(0, Checking(false))];
    var s2 := s1 + [Act(0, Look(false, true))];
    var s3 := s2 + [Act(0, UpdateRow)];
    RunLast(INITIAL, s0, Spawn(0, Checking(false)));
    assert s0 + [Spawn(0, Checking(false))] == s1;
    assert Run(INITIAL, s1).actors == map[0 := Checking(false)];
    RunLast(INITIAL, s1, Act(0, Look(false, true)));
    assert Run(INITIAL, s2).actors == map[0 := Starting(false)];
    RunLast(INITIAL, s2, Act(0, UpdateRow));
    assert s3 == [Spawn(0, Checking(false)), Act(0, Look(false, true)), Act(0, UpdateRow)];
  }

  /** An actor that will append something, or may. */
  predicate Speaks(a: Actor) {
    a.Announcing? || a.Acquiring? || a.Streaming? || a.Emitting?
  }

  ghost predicate NoneSpeaks(s: State) {
    forall id :: id in s.actors ==> !Speaks(s.actors[id])
  }

  /** On a terminal row nobody new gets to speak: every update misses. */
  lemma SilenceNext(s: State, step: Step)
    requires Terminal(s.row.status) && NoneSpeaks(s)
    ensures Next(s, step).log == s.log && Next(s, step).row == s.row && NoneSpeaks(Next(s, step))
  {
    if step.Act? && step.id in s.actors {
      assert !Speaks(s.actors[step.id]);
    }
  }

  lemma {:induction false} SilenceRun(s: State, steps: seq<Step>)
    requires Terminal(s.row.status) && NoneSpeaks(s)
    ensures Run(s, steps).log == s.log && Run(s, steps).row == s.row && NoneSpeaks(Run(s, steps))
  {
    if steps == [] {
    } else {
      SilenceRun(s, steps[..|steps| - 1]);
      SilenceNext(Run(s, steps[..|steps| - 1]), steps[|steps| - 1]);
    }
  }

  /** The move by which a speaking actor appends. */
  function Speech(a: Actor): Move {
    if a.Acquiring? then Acquire(true) else if a.Streaming? then Chunk(NO_TOKENS) else Append
  }

  lemma SpeakerAppends(s: State, id: nat)
    requires id in s.actors && Speaks(s.actors[id])
    ensures var t := Run(s, [Act(id, Speech(s.actors[id]))]);
            t == Next(s, Act(id, Speech(s.actors[id]))) && |t.log| == |s.log| + 1
  {
    var step := Act(id, Speech(s.actors[id]));
    assert [step][..0] == [];
    assert Run(s, [step]) == Next(Run(s, []), step);
  }

  /** On a terminal row the log is final if and only if no actor is announcing, acquiring, streaming or emitting. */
  lemma LogIsFinalIff(s: State)
    requires Terminal(s.row.status)
    ensures (forall steps :: Run(s, steps).log == s.log) <==> NoneSpeaks(s)
  {
    if NoneSpeaks(s) {
      forall steps ensures Run(s, steps).log == s.log {
        SilenceRun(s, steps);
      }
    } else {
      var id :| id in s.actors && Speaks(s.actors[id]);
      SpeakerAppends(s, id);
      assert Run(s, [Act(id, Speech(s.actors[id]))]).log != s.log;
    }
  }

  ghost predicate EndsTerminal(log: seq<Event>) {
    log != [] && TerminalEvent(log[|log| - 1])
  }

  /** A logged terminal event stays the last one if and only if it is the last now and no actor can still append. */
  lemma TerminalEventStaysLastIff(s: State)
    requires Inv(s) && s.place.Logged?
    ensures (forall steps :: EndsTerminal(Run(s, steps).log)) <==> s.place.index == |s.log| - 1 && NoneSpeaks(s)
  {
    assert Run(s, []) == s;
    if NoneSpeaks(s) && s.place.index == |s.log| - 1 {
      forall steps ensures EndsTerminal(Run(s, steps).log) {
        SilenceRun(s, steps);
      }
    } else if s.place.index == |s.log| - 1 {
      var id :| id in s.actors && Speaks(s.actors[id]);
      var step := Act(id, Speech(s.actors[id]));
      SpeakerAppends(s, id);
      NextKeepsInv(s, step);
      SpokenIsNotTerminal(s, id);
      assert !EndsTerminal(Run(s, [step]).log);
    } else {
      assert !EndsTerminal(Run(s, []).log);
    }
  }

  lemma SpokenIsNotTerminal(s: State, id: nat)
    requires Inv(s) && s.place.Logged? && id in s.actors && Speaks(s.actors[id])
    ensures !EndsTerminal(Next(s, Act(id, Speech(s.actors[id]))).log)
  {}

  /** The approval sweep lists a waiting row but cancels whatever it finds later, here a row that runs again. */
  lemma ApprovalSweepMayHitRunning(s: State, sweep: nat, approve: nat, worker: nat)
    requires s.row.status.WaitingApproval? && sweep !in s.actors && approve !in s.actors && worker !in s.actors
    requires sweep != approve && approve != worker && worker != sweep
    ensures var listed := Next(Next(s, Spawn(sweep, ListingExpired)), Act(sweep, List(false)));
            var approved := Next(Next(listed, Spawn(approve, Approving)), Act(approve, UpdateRow));
            var checked := Next(Next(approved, Spawn(worker, Checking(true))), Act(worker, Look(false, true)));
            var started := Next(checked, Act(worker, UpdateRow));
            && started.row.status.Running?
            && Next(started, Act(sweep, UpdateRow)).row.status.Cancelled?
  {
    SweepLists(s, sweep);
    var listed := s.(actors := s.actors[sweep := Stopping(NO_TOKENS)]);
    ApprovalQueues(listed, approve);
    var approved := Next(Next(listed, Spawn(approve, Approving)), Act(approve, UpdateRow));
    WorkerStarts(approved, worker);
  }

  lemma SweepLists(s: State, sweep: nat)
    requires s.row.status.WaitingApproval? && sweep !in s.actors
    ensures Next(Next(s, Spawn(sweep, ListingExpired)), Act(sweep, List(false))) ==
            s.(actors := s.actors[sweep := Stopping(NO_TOKENS)])
  {
    assert s.actors[sweep := ListingExpired][sweep := Stopping(NO_TOKENS)] == s.actors[sweep := Stopping(NO_TOKENS)];
  }

  lemma ApprovalQueues(s: State, approve: nat)
    requires s.row.status.WaitingApproval? && approve !in s.actors
    ensures var t := Next(Next(s, Spawn(approve, Approving)), Act(approve, UpdateRow));
            t.row.status.Queued? && t.actors == s.actors[approve := Done]
  {
    assert s.actors[approve := Approving][approve := Done] == s.actors[approve := Done];
  }

  lemma WorkerStarts(s: State, worker: nat)
    requires s.row.status.Queued? && worker !in s.actors
    ensures var checked := Next(Next(s, Spawn(worker, Checking(true))), Act(worker, Look(false, true)));
            var t := Next(checked, Act(worker, UpdateRow));
            t.row.status.Running? && t.actors == s.actors[worker := Announcing(true)]
  {
    var t := Next(Next(s, Spawn(worker, Checking(true))), Act(worker, Look(false, true)));
    assert t.row == s.row && t.actors == s.actors[worker := Starting(true)];
  }

  // ---- The repository object ----

  predicate Ending(u: Update) {
    u.Succeed? || u.Fail? || u.Cancel?
  }

  function AllUpdated(row: Row, updates: seq<Update>): Row {
    if updates == [] then row else Updated(AllUpdated(row, updates[..|updates| - 1]), updates[|updates| - 1])
  }

  /** The ending updates that hit, of any number tried one after the other. */
  function EndingHits(row: Row, updates: seq<Update>): nat {
    if updates == [] then 0
    else
      var before, u := AllUpdated(row, updates[..|updates| - 1]), updates[|updates| - 1];
      EndingHits(row, updates[..|updates| - 1]) + if Ending(u) && Hits(before, u) then 1 else 0
  }

  /** Whoever races, on an open row at most one ending hits, and one has hit exactly when the row is terminal. */
  lemma {:induction false} OneEndingHits(row: Row, updates: seq<Update>)
    requires !Terminal(row.status)
    ensures EndingHits(row, updates) == if Terminal(AllUpdated(row, updates).status) then 1 else 0
  {
    if updates == [] {
    } else {
      OneEndingHits(row, updates[..|updates| - 1]);
    }
  }

  /** Tried on an open row, they leave it waiting or terminal. */
  predicate Closes(u: Update) {
    u.WaitApproval? || Ending(u)
  }

  /** The i-th update takes a waiting row back to queued or running, or finds it running. */
  ghost predicate Reopens(row: Row, updates: seq<Update>, i: nat) {
    && i < |updates| && (updates[i].Resume? || updates[i].StartAgain?)
    && Hits(AllUpdated(row, updates[..i]), updates[i])
  }

  ghost predicate NoneClosesAfter(updates: seq<Update>, i: nat) {
    forall j :: i < j < |updates| ==> !Closes(updates[j])
  }

  /**
   * The approval sweep lists a waiting row and cancels whatever it finds later. It finds one that has been approved or
   * restarted, and cancels it all the same, exactly when some resume or second start hit in between and nobody tried
   * to suspend or end the run after that.
   */
  lemma {:induction false} SweepHitsReopenedIff(row: Row, updates: seq<Update>)
    requires row.status.WaitingApproval?
    ensures var found := AllUpdated(row, updates);
            found.status.Queued? || found.status.Running? <==>
            exists i :: Reopens(row, updates, i) && NoneClosesAfter(updates, i)
    ensures var found := AllUpdated(row, updates);
            Hits(found, Cancel(NO_TOKENS)) <==> !Terminal(found.status)
  {
    if updates == [] {
    } else {
      var n := |updates| - 1;
      var init, u := updates[..n], updates[n];
      SweepHitsReopenedIff(row, init);
      forall i: nat | i < n ensures Reopens(row, updates, i) <==> Reopens(row, init, i) {
        assert updates[..i] == init[..i];
      }
      forall i: nat | i < n ensures NoneClosesAfter(updates, i) <==> NoneClosesAfter(init, i) && !Closes(u) {
        assert forall j :: i < j < n ==> init[j] == updates[j];
      }
      if Reopens(row, updates, n) {
        assert NoneClosesAfter(updates, n);
      }
    }
  }

  datatype RunStart = First | Resumed | Refused

  class Repository {
    var row: Row

    constructor ()
      ensures row == NEW_ROW
    {
      row := NEW_ROW;
    }

    /** One UPDATE ... WHERE, which reports whether it changed a row. */
    method Transit(u: Update) returns (hit: bool)
      modifies this
      ensures hit == Hits(old(row), u)
      ensures row == Updated(old(row), u)
    {
      hit := Hits(row, u);
      if hit {
        row := Written(row, u);
      }
    }

    /** Anyone else's updates, any number of them. */
    method Interfere()
      modifies this
      ensures Terminal(old(row).status) ==> row == old(row)
      ensures old(row).ended == Terminal(old(row).status) ==> row.ended == Terminal(row.status)
    {
      var n: nat := *;
      while n > 0
        invariant Terminal(old(row).status) ==> row == old(row)
        invariant old(row).ended == Terminal(old(row).status) ==> row.ended == Terminal(row.status)
      {
        var u: Update := *;
        var _ := Transit(u);
        n := n - 1;
      }
    }

    /** Two atomic updates with others in between: refusal is always right about a terminal row. */
    method Start() returns (start: RunStart)
      modifies this
      ensures start.Refused? <== Terminal(old(row).status)
      ensures start.Refused? ==> row.status != Running
      ensures !start.Refused? ==> row.status == Running && !Terminal(old(row).status)
      ensures start.First? <==> old(row).status.Queued?
      ensures Terminal(old(row).status) ==> row == old(row)
    {
      var first := Transit(StartFirst);
      if first {
        return First;
      }
      Interfere();
      var again := Transit(StartAgain);
      return if again then Resumed else Refused;
    }
  }

  // ---- Token accumulation while streaming ----

  /** One stream chunk: its usage, and whether it closes a step (only then is the cancel flag read). */
  datatype StreamChunk = StreamChunk(usage: Tokens, boundary: bool)

  /** The usage of the chunks, counter by counter. */
  function TotalUsage(chunks: seq<StreamChunk>): Tokens {
    if chunks == [] then NO_TOKENS
    else
      var before, last := TotalUsage(chunks[..|chunks| - 1]), chunks[|chunks| - 1].usage;
      Tokens(before.cacheRead + last.cacheRead, before.uncached + last.uncached, before.output + last.output)
  }

  /** raised[i] is what the flag would answer at chunk i; the run stops at the first boundary that sees it raised. */
  method Consume(chunks: seq<StreamChunk>, raised: seq<bool>) returns (tokens: Tokens, consumed: nat, cancelled: bool)
    requires |raised| == |chunks|
    ensures consumed <= |chunks| && tokens == TotalUsage(chunks[..consumed])
    ensures cancelled ==> 0 < consumed && chunks[consumed - 1].boundary && raised[consumed - 1]
    ensures !cancelled ==> consumed == |chunks|
    ensures forall i :: 0 <= i < consumed - 1 ==> !(chunks[i].boundary && raised[i])
    ensures !cancelled ==> forall i :: 0 <= i < |chunks| ==> !(chunks[i].boundary && raised[i])
  {
    tokens, consumed, cancelled := NO_TOKENS, 0, false;
    while consumed < |chunks|
      invariant consumed <= |chunks| && tokens == TotalUsage(chunks[..consumed])
      invariant forall i :: 0 <= i < consumed ==> !(chunks[i].boundary && raised[i])
    {
      assert chunks[..consumed + 1][..consumed] == chunks[..consumed];
      tokens := Plus(tokens, chunks[consumed].usage);
      consumed := consumed + 1;
      if chunks[consumed - 1].boundary && raised[consumed - 1] {
        cancelled := true;
        return;
      }
    }
  }

  /** The steps by which a delivery consumes chunks. */
  function Feed(id: nat, chunks: seq<StreamChunk>): seq<Step> {
    if chunks == [] then []
    else Feed(id, chunks[..|chunks| - 1]) + [Act(id, Chunk(chunks[|chunks| - 1].usage))]
  }

  lemma {:induction false} FedTokens(s: State, id: nat, chunks: seq<StreamChunk>)
    requires Carries(s, id, Streaming(NO_TOKENS))
    ensures Carries(Run(s, Feed(id, chunks)), id, Streaming(TotalUsage(chunks)))
  {
    if chunks == [] {
    } else {
      var init, last := chunks[..|chunks| - 1], chunks[|chunks| - 1];
      FedTokens(s, id, init);
      FedOne(s, Feed(id, init), id, TotalUsage(init), last.usage);
    }
  }

  lemma FedOne(s: State, steps: seq<Step>, id: nat, t: Tokens, u: Tokens)
    requires Carries(Run(s, steps), id, Streaming(t))
    ensures var sum := Tokens(t.cacheRead + u.cacheRead, t.uncached + u.uncached, t.output + u.output);
            && Carries(Run(s, steps + [Act(id, Chunk(u))]), id, Streaming(sum))
            && Carries(Run(s, steps + [Act(id, NoticeCancel(u))]), id, Stopping(sum))
  {
    OneChunk(Run(s, steps), id, t, u);
    RunLast(s, steps, Act(id, Chunk(u)));
    RunLast(s, steps, Act(id, NoticeCancel(u)));
  }

  /**
   * What the loop adds up is what the delivery carries: after any chunks it is streaming with their total, and if it
   * notices the cancel flag at the last of them, it is about to cancel with that total.
   */
  lemma DeliveryCarriesTotal(s: State, id: nat, chunks: seq<StreamChunk>, last: StreamChunk)
    requires Carries(s, id, Streaming(NO_TOKENS))
    ensures Carries(Run(s, Feed(id, chunks + [last])), id, Streaming(TotalUsage(chunks + [last])))
    ensures Carries(Run(s, Feed(id, chunks) + [Act(id, NoticeCancel(last.usage))]), id,
                    Stopping(TotalUsage(chunks + [last])))
  {
    FedTokens(s, id, chunks + [last]);
    FedTokens(s, id, chunks);
    assert (chunks + [last])[..|chunks|] == chunks;
    FedOne(s, Feed(id, chunks), id, TotalUsage(chunks), last.usage);
  }

  predicate Carries(s: State, id: nat, a: Actor) {
    id in s.actors && s.actors[id] == a
  }

  lemma OneChunk(s: State, id: nat, t: Tokens, u: Tokens)
    requires Carries(s, id, Streaming(t))
    ensures var sum := Tokens(t.cacheRead + u.cacheRead, t.uncached + u.uncached, t.output + u.output);
            && Carries(Next(s, Act(id, Chunk(u))), id, Streaming(sum))
            && Carries(Next(s, Act(id, NoticeCancel(u))), id, Stopping(sum))
  {}
}
