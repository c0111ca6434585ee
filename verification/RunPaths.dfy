/**
 * Why each actor of a run does what it does (src/app/run/executor.py, approval.py, reaper.py): every update it tries
 * and every event it appends has its reason in what that actor has done and seen so far.
 */
module RunPaths {
  import opened RunLifecycle

  /** What an actor did: it came into being, tried an update, made another move finding the row so, or died. */
  datatype Deed =
    | Born(actor: Actor)
    | Tried(update: Update, hit: bool)
    | Did(move: Move, found: Status, said: seq<Event>)
    | Died

  type Path = seq<Deed>

  function Added<T(==)>(a: seq<T>, b: seq<T>): seq<T> {
    if a <= b then b[|a|..] else []
  }

  /** What an actor does at a step: nothing, unless the step is its own and changes something. */
  function DeedAt(s: State, step: Step, id: nat): Path {
    var t := Next(s, step);
    if step.id != id || t == s then []
    else
      match step
      case Spawn(_, a) => [Born(a)]
      case Crash(_) => [Died]
      case Act(_, move) =>
        var calls := Added(s.calls, t.calls);
        if calls != [] && t.log == s.log then [Tried(calls[0].update, calls[0].hit)]
        else [Did(move, s.row.status, Added(s.log, t.log))]
  }

  /** All an actor has done in a run. */
  function PathOf(steps: seq<Step>, id: nat): Path {
    if steps == [] then []
    else
      var init := steps[..|steps| - 1];
      PathOf(init, id) + DeedAt(Run(INITIAL, init), steps[|steps| - 1], id)
  }

  // ---- Reasons ----

  predicate EndsWith(path: Path, move: Move) {
    path != [] && path[|path| - 1].Did? && path[|path| - 1].move == move
  }

  function Init(path: Path): Path {
    if path == [] then [] else path[..|path| - 1]
  }

  /** The tokens of the chunks the actor has seen, counter by counter. */
  function Spent(path: Path): Tokens {
    if path == [] then Tokens(0, 0, 0)
    else
      var before, d := Spent(path[..|path| - 1]), path[|path| - 1];
      if d.Did? && (d.move.Chunk? || d.move.NoticeCancel?)
      then Tokens(before.cacheRead + d.move.usage.cacheRead, before.uncached + d.move.usage.uncached,
                  before.output + d.move.usage.output)
      else before
  }

  /** A delivery that saw no cancel flag and an active thread. */
  predicate Looked(path: Path) {
    |path| == 2 && path[0].Born? && path[0].actor.Checking? && EndsWith(path, Look(false, true))
  }

  /** A delivery whose first start missed. */
  predicate Missed(path: Path) {
    |path| == 3 && Looked(path[..2]) && path[2] == Tried(StartFirst, false)
  }

  /** A delivery that has started the run: it is resumed if it carries decisions or was not the first. */
  predicate Started(path: Path, resumed: bool) {
    || (|path| == 3 && Looked(path[..2]) && path[2] == Tried(StartFirst, true) && resumed == path[0].actor.decided)
    || (|path| == 4 && Missed(path[..3]) && path[3] == Tried(StartAgain, true) && resumed)
  }

  predicate Announced(path: Path) {
    && EndsWith(path, Append)
    && (|| (path[|path| - 1].said == [RunStarted(true)] && Started(Init(path), true))
        || (path[|path| - 1].said == [RunStarted(false)] && Started(Init(path), false)))
  }

  /** A delivery in its stream: it has its sandbox and has seen chunks only. */
  predicate InStream(path: Path)
    decreases |path|
  {
    path != [] && path[|path| - 1].Did? &&
    if path[|path| - 1].move.Chunk? then InStream(path[..|path| - 1])
    else path[|path| - 1].move == Acquire(true) && Announced(path[..|path| - 1])
  }

  predicate StreamEnded(path: Path, pending: bool, job: bool) {
    EndsWith(path, StreamEnds(pending, job)) && InStream(Init(path))
  }

  predicate NoticedCancel(path: Path) {
    path != [] && path[|path| - 1].Did? && path[|path| - 1].move.NoticeCancel? && InStream(Init(path))
  }

  /** A delivery that found the flag raised or the thread gone before starting. */
  predicate TurnedAway(path: Path) {
    && |path| == 2 && path[0].Born? && path[0].actor.Checking? && path[1].Did? && path[1].move.Look?
    && (path[1].move.raised || !path[1].move.threadActive)
  }

  /** A sweep that listed the run: as waiting for approval, or as open and not in flight. */
  predicate ListedExpired(path: Path) {
    && |path| == 2 && path[0] == Born(ListingExpired)
    && path[1].Did? && path[1].move.List? && path[1].found.WaitingApproval?
  }

  predicate ListedOrphan(path: Path) {
    && |path| == 2 && path[0] == Born(ListingOrphans) && EndsWith(path, List(false))
    && (path[1].found.Queued? || path[1].found.Running?)
  }

  /** The event that goes with an update that hit. */
  predicate Owes(path: Path, e: Event) {
    && path != [] && path[|path| - 1].Tried? && path[|path| - 1].hit
    && match path[|path| - 1].update
       case Succeed(_, _) => e == RunFinished
       case Fail => e == RunFailed
       case Cancel(_) => e == RunCancelled
       case WaitApproval(_) => e == Interrupt
       case _ => false
  }

  predicate OwesSome(path: Path) {
    Owes(path, RunFinished) || Owes(path, RunFailed) || Owes(path, RunCancelled) || Owes(path, Interrupt)
  }

  /** Why an actor tries an update. */
  predicate Reason(u: Update, path: Path) {
    match u
    case StartFirst => Looked(path)
    case StartAgain => Missed(path)
    case Resume => path == [Born(Approving)]
    case Succeed(tokens, job) => StreamEnded(path, false, job) && tokens == Spent(path)
    case WaitApproval(tokens) =>
      (StreamEnded(path, true, true) || StreamEnded(path, true, false)) && tokens == Spent(path)
    case Cancel(tokens) =>
      && (path == [Born(Stopping(NO_TOKENS))] || TurnedAway(path) || ListedExpired(path) || NoticedCancel(path))
      && tokens == Spent(path)
    case Fail =>
      || ListedOrphan(path)
      || (EndsWith(path, Acquire(false)) && Announced(Init(path)))
      || (EndsWith(path, Raise) && InStream(Init(path)))
      || (EndsWith(path, AppendFails(true)) && OwesSome(Init(path)))
  }

  /** What an actor says: it announces a start or the event its update owes, reports progress, or keeps silent. */
  predicate Speech(d: Deed, path: Path)
    requires d.Did?
  {
    match d.move
    case Acquire(ready) => Announced(path) && d.said == if ready then [Progress] else []
    case Chunk(_) => InStream(path) && d.said == [Progress]
    case Append =>
      || (d.said == [RunStarted(true)] && Started(path, true))
      || (d.said == [RunStarted(false)] && Started(path, false))
      || (|d.said| == 1 && Owes(path, d.said[0]))
    case _ => d.said == []
  }

  predicate Reasoned(d: Deed, path: Path) {
    match d
    case Born(_) => path == []
    case Tried(u, _) => Reason(u, path)
    case Did(_, _, _) => Speech(d, path)
    case Died => path != []
  }

  /** An actor that is through: its update missed, its event is said or lost, there was nothing to do, or it died. */
  predicate Through(path: Path) {
    && path != []
    && match path[|path| - 1]
       case Born(_) => false
       case Died => true
       case Tried(u, hit) => u.Resume? || (!hit && !u.StartFirst?)
       case Did(move, found, said) =>
         match move
         case Append => |said| == 1 && Owes(Init(path), said[0])
         case AppendFails(caught) =>
           Started(Init(path), true) || Started(Init(path), false) || (OwesSome(Init(path)) && !caught)
         case List(_) => |path| == 2 && path[0].Born? && !ListedExpired(path) && !ListedOrphan(path)
         case _ => false
  }

  /** What an actor is about to do is what its path calls for. */
  predicate Agrees(a: Actor, path: Path) {
    match a
    case Checking(_) => path == [Born(a)]
    case ListingExpired => path == [Born(a)]
    case ListingOrphans => path == [Born(a)]
    case Starting(decided) => Looked(path) && path[0].actor.decided == decided
    case StartingAgain(_) => Missed(path)
    case Announcing(resumed) => Started(path, resumed)
    case Acquiring => Announced(path)
    case Streaming(tokens) => InStream(path) && tokens == Spent(path)
    case Emitting(e) => Owes(path, e)
    case Done => Through(path)
    case _ => Reason(UpdateOf(a), path)
  }

  // ---- Every path is reasoned ----

  function Usage(d: Deed): Tokens {
    if d.Did? && (d.move.Chunk? || d.move.NoticeCancel?) then d.move.usage else NO_TOKENS
  }

  lemma OneMore(path: Path, d: Deed)
    ensures Init(path + [d]) == path && (path + [d])[|path|] == d && (path + [d])[..|path|] == path
    ensures Spent(path + [d]) == Plus(Spent(path), Usage(d))
  {
    assert (path + [d])[..|path|] == path;
  }

  /** An update leads on as its result says. */
  lemma TriedAgrees(s: State, id: nat, path: Path)
    requires id in s.actors && Updating(s.actors[id]) && Agrees(s.actors[id], path)
    ensures var a := s.actors[id];
            var d := Tried(UpdateOf(a), Hits(s.row, UpdateOf(a)));
            Reasoned(d, path) && Agrees(AfterUpdate(a, Hits(s.row, UpdateOf(a))), path + [d])
  {
    var a := s.actors[id];
    OneMore(path, Tried(UpdateOf(a), Hits(s.row, UpdateOf(a))));
  }

  /** The deed of a move that is not an update. */
  function DeedOf(s: State, id: nat, move: Move): Deed
    requires id in s.actors
  {
    Did(move, s.row.status, Added(s.log, Moved(s, id, move).log))
  }

  predicate Fits(s: State, id: nat, move: Move, path: Path)
    requires id in s.actors
  {
    var t, d := Moved(s, id, move), DeedOf(s, id, move);
    t.calls == s.calls && id in t.actors && Reasoned(d, path) && Agrees(t.actors[id], path + [d])
  }

  lemma StreamFits(s: State, id: nat, move: Move, path: Path)
    requires id in s.actors && s.actors[id].Streaming? && Agrees(s.actors[id], path) && Moved(s, id, move) != s
    ensures Fits(s, id, move, path)
  {
    OneMore(path, DeedOf(s, id, move));
    assert Added(s.log, s.log + [Progress]) == [Progress];
  }

  ghost predicate NoUsage(path: Path) {
    forall j :: 0 <= j < |path| ==> Usage(path[j]) == NO_TOKENS
  }

  lemma {:induction false} NothingSpent(path: Path)
    requires NoUsage(path)
    ensures Spent(path) == NO_TOKENS
  {
    if path == [] {
    } else {
      NothingSpent(path[..|path| - 1]);
      assert Usage(path[|path| - 1]) == NO_TOKENS;
    }
  }

  lemma LookedSpendsNothing(path: Path)
    requires |path| == 2 && path[0].Born? && path[1].Did? && (path[1].move.Look? || path[1].move.List?)
    ensures Spent(path) == NO_TOKENS
  {
    NothingSpent(path);
  }

  lemma StartedSpendsNothing(path: Path, resumed: bool)
    requires Started(path, resumed)
    ensures Spent(path) == NO_TOKENS
  {
    if |path| == 3 {
      assert path[..2][0] == path[0] && path[..2][1] == path[1];
    } else {
      assert path[..3][..2][0] == path[0] && path[..3][..2][1] == path[1] && path[..3][2] == path[2];
    }
    NothingSpent(path);
  }

  lemma AnnouncedSpendsNothing(path: Path)
    requires Announced(path)
    ensures Spent(path) == NO_TOKENS
  {
    var init, d := Init(path), path[|path| - 1];
    StartedSpendsNothing(init, d.said == [RunStarted(true)]);
    assert Usage(d) == NO_TOKENS;
  }

  lemma OwedIsSaid(path: Path, e: Event, found: Status)
    requires Owes(path, e)
    ensures var d := Did(Append, found, [e]); Reasoned(d, path) && Through(path + [d])
  {
    OneMore(path, Did(Append, found, [e]));
  }

  lemma OwedIsLost(path: Path, e: Event, found: Status, caught: bool)
    requires Owes(path, e)
    ensures var d := Did(AppendFails(caught), found, []);
            Reasoned(d, path) && if caught then Reason(Fail, path + [d]) else Through(path + [d])
  {
    OneMore(path, Did(AppendFails(caught), found, []));
    OwedIsSome(path, e);
  }

  lemma OwedIsSome(path: Path, e: Event)
    requires Owes(path, e)
    ensures OwesSome(path)
  {}

  lemma EmitFits(s: State, id: nat, move: Move, path: Path)
    requires id in s.actors && Agrees(s.actors[id], path) && Moved(s, id, move) != s && s.actors[id].Emitting?
    ensures Fits(s, id, move, path)
  {
    var e := s.actors[id].event;
    assert Added(s.log, s.log + [e]) == [e] && Added(s.log, s.log) == [];
    match move
    case Append => OwedIsSaid(path, e, s.row.status);
    case AppendFails(caught) => OwedIsLost(path, e, s.row.status, caught);
    case _ => assert false;
  }

  lemma StartIsSaid(path: Path, resumed: bool, found: Status)
    requires Started(path, resumed)
    ensures var d := Did(Append, found, [RunStarted(resumed)]); Reasoned(d, path) && Announced(path + [d])
  {
    OneMore(path, Did(Append, found, [RunStarted(resumed)]));
  }

  lemma StartIsLost(path: Path, resumed: bool, found: Status, caught: bool)
    requires Started(path, resumed)
    ensures var d := Did(AppendFails(caught), found, []); Reasoned(d, path) && Through(path + [d])
  {
    OneMore(path, Did(AppendFails(caught), found, []));
  }

  lemma AnnounceFits(s: State, id: nat, move: Move, path: Path)
    requires id in s.actors && Agrees(s.actors[id], path) && Moved(s, id, move) != s && s.actors[id].Announcing?
    ensures Fits(s, id, move, path)
  {
    var resumed := s.actors[id].resumed;
    assert Added(s.log, s.log + [RunStarted(resumed)]) == [RunStarted(resumed)] && Added(s.log, s.log) == [];
    match move
    case Append => StartIsSaid(path, resumed, s.row.status);
    case AppendFails(caught) => StartIsLost(path, resumed, s.row.status, caught);
    case _ => assert false;
  }

  lemma SandboxCame(path: Path, found: Status)
    requires Announced(path)
    ensures var d := Did(Acquire(true), found, [Progress]);
            Reasoned(d, path) && InStream(path + [d]) && Spent(path + [d]) == NO_TOKENS
  {
    OneMore(path, Did(Acquire(true), found, [Progress]));
    AnnouncedSpendsNothing(path);
  }

  lemma SandboxFailed(path: Path, found: Status)
    requires Announced(path)
    ensures var d := Did(Acquire(false), found, []); Reasoned(d, path) && Reason(Fail, path + [d])
  {
    OneMore(path, Did(Acquire(false), found, []));
  }

  lemma AcquireFits(s: State, id: nat, move: Move, path: Path)
    requires id in s.actors && Agrees(s.actors[id], path) && Moved(s, id, move) != s && s.actors[id].Acquiring?
    ensures Fits(s, id, move, path)
  {
    assert Added(s.log, s.log + [Progress]) == [Progress] && Added(s.log, s.log) == [];
    if move == Acquire(true) {
      SandboxCame(path, s.row.status);
    } else {
      SandboxFailed(path, s.row.status);
    }
  }

  lemma Listed(a: Actor, found: Status, inFlight: bool)
    requires a.ListingExpired? || a.ListingOrphans?
    ensures var path, d := [Born(a)], Did(List(inFlight), found, []);
            && Reasoned(d, path) && Spent(path + [d]) == NO_TOKENS
            && (|| (a.ListingExpired? && found.WaitingApproval? && ListedExpired(path + [d]))
                || (a.ListingOrphans? && !inFlight && (found.Queued? || found.Running?) && ListedOrphan(path + [d]))
                || (Through(path + [d]) && !(a.ListingExpired? && found.WaitingApproval?)
                    && !(a.ListingOrphans? && !inFlight && (found.Queued? || found.Running?))))
  {
    var d := Did(List(inFlight), found, []);
    LookedSpendsNothing([Born(a), d]);
    assert [Born(a)] + [d] == [Born(a), d];
  }

  lemma ListFits(s: State, id: nat, move: Move, path: Path)
    requires id in s.actors && Agrees(s.actors[id], path) && Moved(s, id, move) != s
    requires s.actors[id].ListingExpired? || s.actors[id].ListingOrphans?
    ensures Fits(s, id, move, path)
  {
    assert Added(s.log, s.log) == [];
    Listed(s.actors[id], s.row.status, move.inFlight);
  }

  lemma LookFits(s: State, id: nat, move: Move, path: Path)
    requires id in s.actors && Agrees(s.actors[id], path) && Moved(s, id, move) != s && s.actors[id].Checking?
    ensures Fits(s, id, move, path)
  {
    var d := DeedOf(s, id, move);
    OneMore(path, d);
    LookedSpendsNothing(path + [d]);
  }

  lemma MoveFits(s: State, id: nat, move: Move, path: Path)
    requires id in s.actors && Agrees(s.actors[id], path) && !move.UpdateRow? && Moved(s, id, move) != s
    ensures Fits(s, id, move, path)
  {
    var a := s.actors[id];
    if a.Streaming? {
      StreamFits(s, id, move, path);
    } else if a.Emitting? {
      EmitFits(s, id, move, path);
    } else if a.Announcing? {
      AnnounceFits(s, id, move, path);
    } else if a.Acquiring? {
      AcquireFits(s, id, move, path);
    } else if a.Checking? {
      LookFits(s, id, move, path);
    } else {
      ListFits(s, id, move, path);
    }
  }

  /** Where an actor stands, if it exists, is where its path has led it. */
  ghost predicate Stands(s: State, id: nat, path: Path) {
    if id in s.actors then Agrees(s.actors[id], path) else path == []
  }

  ghost predicate AllReasoned(path: Path) {
    forall j :: 0 <= j < |path| ==> Reasoned(path[j], path[..j])
  }

  lemma ReasonedAppend(path: Path, d: Deed)
    requires AllReasoned(path) && Reasoned(d, path)
    ensures AllReasoned(path + [d])
  {
    var more := path + [d];
    forall j | 0 <= j < |more| ensures Reasoned(more[j], more[..j]) {
      if j < |path| {
        assert more[..j] == path[..j];
      } else {
        assert more[..j] == path;
      }
    }
  }

  /** One deed at most, and a reasoned one. */
  ghost predicate Continues(s: State, step: Step, id: nat, path: Path) {
    var deeds := DeedAt(s, step, id);
    && Stands(Next(s, step), id, path + deeds)
    && (deeds == [] || (|deeds| == 1 && Reasoned(deeds[0], path)))
  }

  lemma StepContinues(s: State, step: Step, id: nat, path: Path)
    requires Stands(s, id, path)
    ensures Continues(s, step, id, path)
  {
    assert path + [] == path;
    if step.id == id && Next(s, step) != s {
      match step
      case Spawn(_, a) => SpawnContinues(s, id, a);
      case Crash(_) => CrashContinues(s, id, path);
      case Act(_, move) => ActContinues(s, id, move, path);
    }
  }

  lemma SpawnContinues(s: State, id: nat, a: Actor)
    requires id !in s.actors && Next(s, Spawn(id, a)) != s
    ensures Continues(s, Spawn(id, a), id, [])
  {
    assert [] + [Born(a)] == [Born(a)];
    assert Spent([Born(a)]) == Spent([]);
  }

  lemma CrashContinues(s: State, id: nat, path: Path)
    requires id in s.actors && Agrees(s.actors[id], path) && Next(s, Crash(id)) != s
    ensures Continues(s, Crash(id), id, path)
  {
    OneMore(path, Died);
    AgreesNonempty(s.actors[id], path);
  }

  lemma AgreesNonempty(a: Actor, path: Path)
    requires Agrees(a, path)
    ensures path != []
  {}

  lemma ActContinues(s: State, id: nat, move: Move, path: Path)
    requires id in s.actors && Agrees(s.actors[id], path) && Next(s, Act(id, move)) != s
    ensures Continues(s, Act(id, move), id, path)
  {
    if move.UpdateRow? {
      var u := UpdateOf(s.actors[id]);
      OneCall(s, Act(id, move));
      assert Added(s.calls, s.calls + [Call(id, u, Hits(s.row, u))]) == [Call(id, u, Hits(s.row, u))];
      TriedAgrees(s, id, path);
    } else {
      MoveFits(s, id, move, path);
      assert Added(s.calls, s.calls) == [];
    }
  }

  /**
   * Over every run, each update an actor tried and each event it appended has its reason in what the actor had done
   * before, and what it is about to do is what its path calls for.
   */
  lemma {:induction false} PathsAreReasoned(steps: seq<Step>, id: nat)
    ensures AllReasoned(PathOf(steps, id)) && Stands(Run(INITIAL, steps), id, PathOf(steps, id))
  {
    if steps == [] {
    } else {
      var init, step := steps[..|steps| - 1], steps[|steps| - 1];
      var s, path := Run(INITIAL, init), PathOf(init, id);
      PathsAreReasoned(init, id);
      StepContinues(s, step, id, path);
      var deeds := DeedAt(s, step, id);
      if deeds != [] {
        ReasonedAppend(path, deeds[0]);
        assert deeds == [deeds[0]];
      } else {
        assert path + [] == path;
      }
    }
  }

  ghost predicate OnPath(c: Call, path: Path, j: nat) {
    j < |path| && path[j] == Tried(c.update, c.hit) && Reason(c.update, path[..j])
  }

  /** Every update in the run's history was tried by an actor that had reason to. */
  lemma {:induction false} UpdatesHaveReasons(steps: seq<Step>, k: nat) returns (j: nat)
    requires k < |Run(INITIAL, steps).calls|
    ensures var c := Run(INITIAL, steps).calls[k]; OnPath(c, PathOf(steps, c.actor), j)
  {
    var init, step := steps[..|steps| - 1], steps[|steps| - 1];
    var s := Run(INITIAL, init);
    CallsGrow(s, step);
    if k < |s.calls| {
      j := UpdatesHaveReasons(init, k);
      OnLonger(s.calls[k], PathOf(init, s.calls[k].actor), DeedAt(s, step, s.calls[k].actor), j);
    } else {
      var c := LastCall(s, step);
      j := |PathOf(init, c.actor)|;
      PathsAreReasoned(init, c.actor);
      StepContinues(s, step, c.actor, PathOf(init, c.actor));
      OnEnd(c, PathOf(init, c.actor));
    }
  }

  lemma OnLonger(c: Call, path: Path, more: Path, j: nat)
    requires OnPath(c, path, j)
    ensures OnPath(c, path + more, j)
  {
    assert (path + more)[..j] == path[..j];
  }

  lemma OnEnd(c: Call, path: Path)
    requires Reason(c.update, path)
    ensures OnPath(c, path + [Tried(c.update, c.hit)], |path|)
  {
    OneMore(path, Tried(c.update, c.hit));
  }

  lemma CallsGrow(s: State, step: Step)
    ensures s.calls <= Next(s, step).calls
  {
    if step.Act? && step.id in s.actors && step.move.UpdateRow? && Updating(s.actors[step.id]) {
      OneCall(s, step);
    } else {
      NoCall(s, step);
    }
  }

  lemma LastCall(s: State, step: Step) returns (c: Call)
    requires |s.calls| < |Next(s, step).calls|
    ensures Next(s, step).calls == s.calls + [c]
    ensures DeedAt(s, step, c.actor) == [Tried(c.update, c.hit)]
  {
    if step.Act? && step.id in s.actors && step.move.UpdateRow? && Updating(s.actors[step.id]) {
      OneCall(s, step);
      var u := UpdateOf(s.actors[step.id]);
      c := Call(step.id, u, Hits(s.row, u));
      assert Added(s.calls, s.calls + [c]) == [c];
    } else {
      NoCall(s, step);
    }
  }
}
