/**
 * The task queue and orphan detection (src/app/task/queue.py, src/app/run/reaper.py): a stream with one consumer
 * group, a snapshot of it taken in several views, and the reaper that trusts the snapshot.
 */
module TaskQueue {

  /** A message; ids are assigned in increasing order. */
  datatype Message = Message(id: nat, run: string)

  /**
   * The stream, and the group if it exists: messages up to `delivered` have been handed out; of those, `pending` are
   * not yet acknowledged.
   */
  datatype Queue = Queue(stream: seq<Message>, group: bool, delivered: nat, pending: set<nat>)

  const EMPTY := Queue([], false, 0, {})

  ghost predicate Ordered(s: seq<Message>) {
    forall i, j :: 0 <= i < j < |s| ==> s[i].id < s[j].id
  }

  ghost predicate Valid(q: Queue) {
    && Ordered(q.stream)
    && (forall m :: m in q.stream ==> 0 < m.id)
    && (!q.group ==> q.delivered == 0 && q.pending == {})
    && (forall id :: id in q.pending ==> id <= q.delivered && exists m :: m in q.stream && m.id == id)
  }

  /** Handed out and acknowledged. */
  predicate Acked(q: Queue, m: Message) {
    m in q.stream && m.id <= q.delivered && m.id !in q.pending
  }

  /** Published and not acknowledged: waiting, running, or left behind by a crashed worker. */
  predicate Live(q: Queue, m: Message) {
    m in q.stream && !(m.id <= q.delivered && m.id !in q.pending)
  }

  // ---- The commands, each atomic at the server. Nothing is trimmed. ----

  /** A starting worker creates the group, from the first message on; a publisher does not. */
  datatype Command =
    | CreateGroup
    | Publish(message: Message)
    | ReserveNew(message: Message)
    | Reclaim(id: nat)
    | Ack(id: nat)

  predicate Enabled(q: Queue, c: Command) {
    match c
    case CreateGroup => true
    case Publish(m) =>
      0 < m.id && q.delivered < m.id && forall x :: x in q.stream ==> x.id < m.id
    case ReserveNew(m) =>
      && q.group && m in q.stream && q.delivered < m.id
      && forall x :: x in q.stream && q.delivered < x.id ==> m.id <= x.id
    case Reclaim(id) => id in q.pending
    case Ack(id) => true
  }

  function Next(q: Queue, c: Command): Queue {
    match c
    case CreateGroup => q.(group := true)
    case Publish(m) => q.(stream := q.stream + [m])
    case ReserveNew(m) => q.(delivered := m.id, pending := q.pending + {m.id})
    case Reclaim(_) => q
    case Ack(id) => q.(pending := q.pending - {id})
  }

  lemma NextKeepsValid(q: Queue, c: Command)
    requires Valid(q) && Enabled(q, c)
    ensures Valid(Next(q, c))
  {}

  /** A run of commands from q, none of them disabled. */
  ghost predicate Reaches(q: Queue, commands: seq<Command>, t: Queue)
    decreases |commands|
  {
    if commands == [] then q == t
    else Enabled(q, commands[0]) && Reaches(Next(q, commands[0]), commands[1..], t)
  }

  /** What any run can do: messages are only added, the group stays, delivery advances, an acknowledgement is final. */
  ghost predicate Evolves(q: Queue, t: Queue) {
    && Valid(q) && Valid(t)
    && q.stream <= t.stream
    && (q.group ==> t.group)
    && q.delivered <= t.delivered
    && (forall m :: Acked(q, m) ==> Acked(t, m))
    && (forall m :: m in t.stream && m !in q.stream ==> q.delivered < m.id)
  }

  lemma NextEvolves(q: Queue, c: Command)
    requires Valid(q) && Enabled(q, c)
    ensures Evolves(q, Next(q, c))
  {}

  lemma EvolvesTransitive(a: Queue, b: Queue, c: Queue)
    requires Evolves(a, b) && Evolves(b, c)
    ensures Evolves(a, c)
  {}

  lemma {:induction false} RunsEvolve(q: Queue, commands: seq<Command>, t: Queue)
    requires Valid(q) && Reaches(q, commands, t)
    ensures Evolves(q, t)
    decreases |commands|
  {
    if commands == [] {
    } else {
      NextEvolves(q, commands[0]);
      RunsEvolve(Next(q, commands[0]), commands[1..], t);
      EvolvesTransitive(q, Next(q, commands[0]), t);
    }
  }

  /** The id was pending at the start (i is 0), or the i-th command handed it out. */
  ghost predicate HandedOut(q: Queue, commands: seq<Command>, i: nat, id: nat) {
    if i == 0 then id in q.pending
    else i <= |commands| && commands[i - 1].ReserveNew? && commands[i - 1].message.id == id
  }

  ghost predicate NoAckFrom(commands: seq<Command>, i: nat, id: nat) {
    forall j :: i <= j < |commands| ==> commands[j] != Ack(id)
  }

  /** Over any run a message is pending exactly from its delivery to its acknowledgement. */
  lemma {:induction false} PendingIff(q: Queue, commands: seq<Command>, t: Queue, id: nat)
    requires Reaches(q, commands, t)
    ensures id in t.pending <==> exists i: nat :: HandedOut(q, commands, i, id) && NoAckFrom(commands, i, id)
    decreases |commands|
  {
    if commands == [] {
      assert HandedOut(q, commands, 0, id) <==> id in q.pending;
      assert NoAckFrom(commands, 0, id);
    } else {
      var next, rest := Next(q, commands[0]), commands[1..];
      PendingIff(next, rest, t, id);
      forall i: nat ensures NoAckFrom(rest, i, id) <==> NoAckFrom(commands, i + 1, id) {
        Shifted(commands, i, id);
      }
      forall i: nat | i > 0 ensures HandedOut(next, rest, i, id) <==> HandedOut(q, commands, i + 1, id) {
      }
      assert HandedOut(next, rest, 0, id) <==>
             (HandedOut(q, commands, 0, id) && commands[0] != Ack(id)) || HandedOut(q, commands, 1, id);
      assert NoAckFrom(commands, 0, id) <==> commands[0] != Ack(id) && NoAckFrom(commands, 1, id);
      if id in t.pending {
        var i: nat :| HandedOut(next, rest, i, id) && NoAckFrom(rest, i, id);
        assert NoAckFrom(commands, i + 1, id);
      }
      if i: nat :| HandedOut(q, commands, i, id) && NoAckFrom(commands, i, id) {
        var k := if i == 0 then 0 else i - 1;
        assert NoAckFrom(rest, k, id) <==> NoAckFrom(commands, k + 1, id);
      }
    }
  }

  lemma Shifted(commands: seq<Command>, i: nat, id: nat)
    requires commands != []
    ensures NoAckFrom(commands[1..], i, id) <==> NoAckFrom(commands, i + 1, id)
  {
    var rest := commands[1..];
    if NoAckFrom(rest, i, id) {
      forall j | i + 1 <= j < |commands| ensures commands[j] != Ack(id) {
        assert rest[j - 1] == commands[j];
      }
    }
  }

  // ---- The views of in_flight ----

  /** XRANGE from an id, one entry: the first message at or after it. */
  function FirstFrom(s: seq<Message>, id: nat): seq<Message> {
    if s == [] then []
    else if s[0].id >= id then [s[0]]
    else FirstFrom(s[1..], id)
  }

  lemma {:induction false} FirstFromExact(s: seq<Message>, m: Message)
    requires Ordered(s) && m in s
    ensures FirstFrom(s, m.id) == [m]
  {
    var i :| 0 <= i < |s| && s[i] == m;
    if i == 0 {
    } else {
      assert s[0].id < s[i].id;
      assert s[1..][i - 1] == m;
      FirstFromExact(s[1..], m);
    }
  }

  function RunsOf(s: seq<Message>): set<string> {
    set m | m in s :: m.run
  }

  /** XRANGE above an id. */
  function Above(s: seq<Message>, id: nat): set<Message> {
    set m | m in s && id < m.id
  }

  function WaitingRuns(s: seq<Message>, id: nat): set<string> {
    set m | m in Above(s, id) :: m.run
  }

  /** The run read for one pending id, at the instant of that read. */
  function HoldingRuns(s: seq<Message>, id: nat): set<string> {
    RunsOf(FirstFrom(s, id))
  }

  // ---- Soundness and completeness of the snapshot ----

  /** A message published before the snapshot and unacknowledged after it was already waiting or pending. */
  lemma LiveThroughout(begin: Queue, mid: Queue, end: Queue, m: Message)
    requires Evolves(begin, mid) && Evolves(mid, end)
    requires m in begin.stream && Live(end, m)
    ensures m in mid.stream
    ensures m.id <= begin.delivered ==> m.id in mid.pending
  {
    assert !Acked(end, m);
    assert !Acked(mid, m);
  }

  /** A run only shows up because of a message that was not acknowledged when the snapshot began. */
  lemma ShownWasNotAcked(begin: Queue, mid: Queue, m: Message)
    requires Evolves(begin, mid) && m in mid.stream
    requires m.id in mid.pending || begin.delivered < m.id
    ensures !Acked(begin, m)
  {}

  /** The runs of the pending messages. */
  function HeldRuns(s: seq<Message>, ids: set<nat>): set<string> {
    set m | m in s && m.id in ids :: m.run
  }

  /** However late it happens, the read for one pending id returns that message: the stream only grows. */
  lemma PendingReadIsMessage(listed: Queue, at: Queue, id: nat)
    requires Evolves(listed, at) && id in listed.pending
    ensures HoldingRuns(at.stream, id) == HeldRuns(listed.stream, {id})
  {
    var m :| m in listed.stream && m.id == id;
    assert m in at.stream;
    FirstFromExact(at.stream, m);
    OnlyMessage(listed.stream, m);
  }

  lemma OnlyMessage(s: seq<Message>, m: Message)
    requires Ordered(s) && m in s
    ensures HeldRuns(s, {m.id}) == {m.run}
  {}

  lemma HeldRunsUnion(s: seq<Message>, a: set<nat>, b: set<nat>)
    ensures HeldRuns(s, a + b) == HeldRuns(s, a) + HeldRuns(s, b)
  {}

  /**
   * What in_flight returns: nothing if the group does not exist when it begins; else from the group's position then,
   * the pending list as listed later, and the undelivered tail read last. Commands run in between.
   */
  function SnapshotOf(begin: Queue, listed: Queue, tail: Queue): set<string> {
    if !begin.group then {}
    else HeldRuns(listed.stream, listed.pending) + WaitingRuns(tail.stream, begin.delivered)
  }

  /** The states of its reads; without a group the first is the only one. */
  ghost predicate Reading(begin: Queue, listed: Queue, tail: Queue) {
    Evolves(begin, listed) && Evolves(listed, tail) && (begin.group || tail == begin)
  }

  /** Every message published before the snapshot began and still unacknowledged when it returned is in it. */
  ghost predicate MissesNothing(begin: Queue, tail: Queue, runs: set<string>) {
    forall m :: m in begin.stream && Live(tail, m) ==> m.run in runs
  }

  lemma LiveIsShown(begin: Queue, listed: Queue, tail: Queue, m: Message)
    requires Evolves(begin, listed) && Evolves(listed, tail) && begin.group
    requires m in begin.stream && Live(tail, m)
    ensures m.run in SnapshotOf(begin, listed, tail)
  {
    LiveThroughout(begin, listed, tail, m);
    if m.id <= begin.delivered {
      assert m.run in HeldRuns(listed.stream, listed.pending);
    } else {
      assert m in Above(tail.stream, begin.delivered);
    }
  }

  /** Before there is a group every message is live. */
  lemma LiveWithoutGroup(q: Queue)
    requires Valid(q) && !q.group
    ensures forall m :: m in q.stream ==> Live(q, m)
  {}

  /** The snapshot misses nothing exactly when the group existed at its first read, or there was no message then. */
  lemma InFlightMissesNothingIff(begin: Queue, listed: Queue, tail: Queue)
    requires Reading(begin, listed, tail)
    ensures MissesNothing(begin, tail, SnapshotOf(begin, listed, tail)) <==> begin.group || begin.stream == []
  {
    if begin.group {
      forall m | m in begin.stream && Live(tail, m) ensures m.run in SnapshotOf(begin, listed, tail) {
        LiveIsShown(begin, listed, tail, m);
      }
    } else if begin.stream != [] {
      LiveWithoutGroup(begin);
      assert begin.stream[0] in begin.stream;
    }
  }

  /** Every run in the snapshot has a message that was not acknowledged when the snapshot began. */
  lemma InFlightHasReason(begin: Queue, listed: Queue, tail: Queue, run: string) returns (m: Message)
    requires Evolves(begin, listed) && Evolves(listed, tail)
    requires run in SnapshotOf(begin, listed, tail)
    ensures m in tail.stream && m.run == run && !Acked(begin, m)
  {
    if run in WaitingRuns(tail.stream, begin.delivered) {
      m :| m in Above(tail.stream, begin.delivered) && m.run == run;
    } else {
      m :| m in listed.stream && m.id in listed.pending && m.run == run;
      ShownWasNotAcked(begin, listed, m);
    }
  }

  // ---- The reaper's answer ----

  /** The runs that are not in flight, in the order listed. */
  function NotIn(runs: seq<string>, busy: set<string>): seq<string> {
    if runs == [] then []
    else
      var rest := NotIn(runs[..|runs| - 1], busy);
      if runs[|runs| - 1] in busy then rest else rest + [runs[|runs| - 1]]
  }

  lemma {:induction false} NotInMember(runs: seq<string>, busy: set<string>, run: string)
    ensures run in NotIn(runs, busy) <==> run in runs && run !in busy
  {
    if runs == [] {
    } else {
      NotInMember(runs[..|runs| - 1], busy, run);
      assert runs == runs[..|runs| - 1] + [runs[|runs| - 1]];
    }
  }

  lemma {:induction false} NotInConcat(a: seq<string>, b: seq<string>, busy: set<string>)
    ensures NotIn(a + b, busy) == NotIn(a, busy) + NotIn(b, busy)
  {
    if b == [] {
      assert a + b == a;
    } else {
      NotInConcat(a, b[..|b| - 1], busy);
      assert (a + b)[..|a + b| - 1] == a + b[..|b| - 1];
    }
  }

  /** No run that is listed has a message that is still live. */
  ghost predicate NoneAlive(begin: Queue, tail: Queue, orphans: seq<string>) {
    forall m :: m in begin.stream && Live(tail, m) ==> m.run !in orphans
  }

  /**
   * The reaper lists no run with a live message exactly when the group existed at the first read, or no message of an
   * unfinished run was in the stream then. Whom it spares has a message that was not acknowledged at the start.
   */
  lemma OrphansAreDeadIff(begin: Queue, listed: Queue, tail: Queue, unfinished: seq<string>)
    requires Reading(begin, listed, tail)
    ensures var orphans := NotIn(unfinished, SnapshotOf(begin, listed, tail));
            && (NoneAlive(begin, tail, orphans) <==>
                begin.group || forall m :: m in begin.stream ==> m.run !in unfinished)
            && (forall run :: run in unfinished && run !in orphans ==>
                exists m :: m in tail.stream && m.run == run && !Acked(begin, m))
  {
    var busy := SnapshotOf(begin, listed, tail);
    var orphans := NotIn(unfinished, busy);
    forall run ensures run in orphans <==> run in unfinished && run !in busy {
      NotInMember(unfinished, busy, run);
    }
    if begin.group {
      InFlightMissesNothingIff(begin, listed, tail);
    } else {
      LiveWithoutGroup(begin);
    }
    forall run | run in unfinished && run !in orphans
      ensures exists m :: m in tail.stream && m.run == run && !Acked(begin, m)
    {
      var m := InFlightHasReason(begin, listed, tail, run);
    }
  }

  /**
   * A run submitted before any worker has started: its message is live, the snapshot is empty, and the reaper lists it.
   * The worker that starts next creates the group and is handed that message.
   */
  lemma SubmittedBeforeWorkers(run: string)
    ensures var m := Message(1, run);
            var q := Queue([m], false, 0, {});
            && Reaches(EMPTY, [Publish(m)], q) && Live(q, m)
            && SnapshotOf(q, q, q) == {} && NotIn([run], SnapshotOf(q, q, q)) == [run]
            && Reaches(q, [CreateGroup, ReserveNew(m)], Queue([m], true, 1, {1}))
  {
    var m := Message(1, run);
    var q, started := Queue([m], false, 0, {}), Queue([m], true, 0, {});
    var end := Queue([m], true, 1, {1});
    assert m in q.stream;
    StepOnce(EMPTY, Publish(m), [], q, q);
    StepOnce(started, ReserveNew(m), [], end, end);
    StepOnce(q, CreateGroup, [ReserveNew(m)], started, end);
    assert [Publish(m)] + [] == [Publish(m)] && [ReserveNew(m)] + [] == [ReserveNew(m)];
    assert [CreateGroup] + [ReserveNew(m)] == [CreateGroup, ReserveNew(m)];
    NobodyBusy(run);
  }

  lemma NobodyBusy(run: string)
    ensures NotIn([run], {}) == [run]
  {
    assert [run][..0] == [];
  }

  lemma StepOnce(q: Queue, c: Command, rest: seq<Command>, mid: Queue, t: Queue)
    requires Enabled(q, c) && Next(q, c) == mid && Reaches(mid, rest, t)
    ensures Reaches(q, [c] + rest, t)
  {
    assert ([c] + rest)[1..] == rest;
  }

  // ---- The queue object, with other processes between every two views ----

  class TaskStream {
    var q: Queue

    constructor ()
      ensures q == EMPTY && Valid(q)
    {
      q := EMPTY;
    }

    /** Publishers, workers and acknowledgements elsewhere, any number of their commands. */
    method Interfere()
      requires Valid(q)
      modifies this
      ensures Evolves(old(q), q)
    {
      var n: nat := *;
      while n > 0
        invariant Evolves(old(q), q)
      {
        var c: Command := *;
        if Enabled(q, c) {
          NextEvolves(q, c);
          EvolvesTransitive(old(q), q, Next(q, c));
          q := Next(q, c);
        }
        n := n - 1;
      }
    }

    /** Others work, then one XRANGE for one listed id. */
    method ReadOne(id: nat, ghost listed: Queue) returns (runs: set<string>)
      requires Evolves(listed, q) && id in listed.pending
      modifies this
      ensures Evolves(listed, q)
      ensures runs == HeldRuns(listed.stream, {id})
    {
      ghost var before := q;
      Interfere();
      EvolvesTransitive(listed, before, q);
      PendingReadIsMessage(listed, q, id);
      runs := HoldingRuns(q.stream, id);
    }

    /** The runs of the pending list, read one message at a time while others work. */
    method Holding() returns (found: set<string>)
      requires Valid(q)
      modifies this
      ensures Evolves(old(q), q)
      ensures found == HeldRuns(old(q).stream, old(q).pending)
    {
      ghost var listed := q;
      EvolvesReflexive(q);
      found := {};
      var ids := q.pending;
      var seen: set<nat> := {};
      while ids - seen != {}
        invariant seen <= ids == listed.pending
        invariant Evolves(listed, q)
        invariant found == HeldRuns(listed.stream, seen)
        decreases ids - seen
      {
        var id :| id in ids - seen;
        var runs := ReadOne(id, listed);
        HeldRunsUnion(listed.stream, seen, {id});
        found, seen := found + runs, seen + {id};
      }
      assert seen == ids;
    }

    /** The runs still in the queue, as far as the group lets it see. */
    method InFlight() returns (runs: set<string>, ghost listed: Queue)
      requires Valid(q)
      modifies this
      ensures Reading(old(q), listed, q) && runs == SnapshotOf(old(q), listed, q)
      ensures MissesNothing(old(q), q, runs) <==> old(q).group || old(q).stream == []
      ensures forall run :: run in runs ==> exists m :: m in q.stream && m.run == run && !Acked(old(q), m)
    {
      ghost var begin := q;
      if q.group {
        runs, listed := ReadAll();
      } else {
        EvolvesReflexive(q);
        runs, listed := {}, q;
      }
      InFlightMissesNothingIff(begin, listed, q);
      forall run | run in runs ensures exists m :: m in q.stream && m.run == run && !Acked(begin, m) {
        var m := InFlightHasReason(begin, listed, q, run);
      }
    }

    /** The reads of in_flight, with commands of others between any two of them. */
    method ReadAll() returns (runs: set<string>, ghost listed: Queue)
      requires Valid(q) && q.group
      modifies this
      ensures Evolves(old(q), listed) && Evolves(listed, q)
      ensures runs == SnapshotOf(old(q), listed, q)
    {
      var position := q.delivered;
      Interfere();
      listed := q;
      var holding := Holding();
      ghost var mid := q;
      Interfere();
      EvolvesTransitive(listed, mid, q);
      runs := holding + WaitingRuns(q.stream, position);
    }

    /** Which of the unfinished runs, read from the database beforehand, are not in the queue. */
    method Orphaned(unfinished: seq<string>) returns (orphans: seq<string>, ghost listed: Queue)
      requires Valid(q)
      modifies this
      ensures Reading(old(q), listed, q) && orphans == NotIn(unfinished, SnapshotOf(old(q), listed, q))
      ensures NoneAlive(old(q), q, orphans) <==>
              old(q).group || forall m :: m in old(q).stream ==> m.run !in unfinished
      ensures forall run :: run in unfinished && run !in orphans ==>
                exists m :: m in q.stream && m.run == run && !Acked(old(q), m)
    {
      ghost var begin := q;
      orphans := [];
      if unfinished == [] {
        EvolvesReflexive(q);
        listed := q;
      } else {
        var busy;
        busy, listed := InFlight();
        for i := 0 to |unfinished|
          invariant orphans == NotIn(unfinished[..i], busy)
        {
          assert unfinished[..i + 1][..i] == unfinished[..i];
          if unfinished[i] !in busy {
            orphans := orphans + [unfinished[i]];
          }
        }
        assert unfinished[..|unfinished|] == unfinished;
      }
      OrphansAreDeadIff(begin, listed, q, unfinished);
    }
  }

  lemma EvolvesReflexive(q: Queue)
    requires Valid(q)
    ensures Evolves(q, q)
  {}
}
