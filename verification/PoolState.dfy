/**
 * The sandbox pool as a value (src/app/sandbox/pool.py): what it holds, the steps that change it, and what every step
 * keeps. Steps are cut at the awaits, where the lock-free calls can run while the lock is held.
 */
module PoolState {
  import opened Common

  datatype Slot = Slot(container: nat, holders: set<string>, lastUsed: int)

  datatype Future = Pending | Granted | Cancelled

  /** A suspended acquire: its future, and the thread it wants a container for. */
  datatype Waiter = Waiter(thread: string, future: Future)

  /** Why a container is stopped; idling was judged at a time, when the log below had so many entries. */
  datatype Why = Evicted | Idle(seen: nat, judged: int) | Discarded | Shutdown | Dead

  /** How long a container may idle, and a lease may lie untouched. */
  datatype Limits = Limits(idle: int, lease: int)

  /** What has happened to containers, in order. */
  datatype Event =
    | Leased(container: nat, holder: string, at: int)
    | Released(container: nat, holder: string, at: int)
    | Used(container: nat, at: int)
    | Found(container: nat, at: int)
    | Expired(container: nat, at: int)
    | Stopped(container: nat, why: Why)

  /** The events that count as somebody using a container. */
  predicate IsUse(e: Event) {
    e.Leased? || e.Released? || e.Used? || e.Found?
  }

  /** One call of a waiter's position callback. */
  datatype Call = Call(ticket: nat, position: nat)

  type Slots = map<string, Slot>
  type Waiters = map<nat, Waiter>

  /**
   * slot, queue and reserved are the pool's own fields. Waiters are numbered in order of arrival. The rest is history:
   * the waiters granted so far, the positions announced, the events, the containers now running, the thread whose
   * container is being started, whether every acquire so far was alone on its thread, and the capacity bound.
   */
  datatype State = State(
    slot: Slots,
    queue: seq<nat>,
    reserved: int,
    waiting: Waiters,
    next: nat,
    made: nat,
    now: int,
    starting: Option<string>,
    log: seq<Event>,
    grants: seq<nat>,
    told: seq<Call>,
    running: set<nat>,
    serial: bool,
    cap: nat)

  // ---- What every state satisfies ----

  function Busy(starting: Option<string>): nat {
    if starting.Some? then 1 else 0
  }

  function GrantedSet(waiting: Waiters): set<nat> {
    set w | w in waiting && waiting[w].future.Granted?
  }

  /** Containers, promised places and the one being started fit; no promise is forgotten. */
  ghost predicate Fits(slot: Slots, reserved: int, starting: Option<string>, waiting: Waiters, cap: nat) {
    && |slot| + reserved + Busy(starting) <= cap
    && |GrantedSet(waiting)| <= reserved
  }

  ghost predicate Rising(s: seq<nat>) {
    forall i, j :: 0 <= i < j < |s| ==> s[i] < s[j]
  }

  ghost predicate Below(s: seq<nat>, n: nat) {
    forall i :: 0 <= i < |s| ==> s[i] < n
  }

  /** Everyone granted so far arrived before everyone still queued, and each in order. */
  ghost predicate Fifo(grants: seq<nat>, queue: seq<nat>, next: nat) {
    Rising(grants + queue) && Below(grants + queue, next)
  }

  ghost predicate FutureOk(w: nat, waiter: Waiter, queue: seq<nat>, grants: seq<nat>, next: nat) {
    && w < next
    && (waiter.future.Pending? ==> w in queue)
    && (waiter.future.Granted? ==> w in grants)
  }

  /** Whoever is queued has a live, ungranted future. */
  ghost predicate Futures(queue: seq<nat>, waiting: Waiters, grants: seq<nat>, next: nat) {
    && (forall w :: w in queue ==> w in waiting && !waiting[w].future.Granted?)
    && (forall w :: w in waiting ==> FutureOk(w, waiting[w], queue, grants, next))
  }

  /** No waiter is ever told a position behind one it was told before. */
  ghost predicate Steady(told: seq<Call>) {
    forall i, j :: 0 <= i < j < |told| && told[i].ticket == told[j].ticket ==> told[j].position <= told[i].position
  }

  ghost predicate Ahead(told: seq<Call>, queue: seq<nat>, next: nat) {
    && (forall i, k :: 0 <= i < |told| && 0 <= k < |queue| && told[i].ticket == queue[k] ==> k < told[i].position)
    && (forall i :: 0 <= i < |told| ==> told[i].ticket < next)
  }

  /** Who holds a container, by the events. */
  function Holders(log: seq<Event>, c: nat): set<string> {
    if log == [] then {} else HoldersAfter(Holders(log[..|log| - 1], c), log[|log| - 1], c)
  }

  function HoldersAfter(before: set<string>, e: Event, c: nat): set<string> {
    if e.container != c then before
    else
      match e
      case Leased(_, h, _) => before + {h}
      case Released(_, h, _) => before - {h}
      case Expired(_, _) => {}
      case _ => before
  }

  /** Nobody has used the container since the limit. */
  ghost predicate Untouched(log: seq<Event>, c: nat, limit: int) {
    forall k :: 0 <= k < |log| && IsUse(log[k]) && log[k].container == c ==> log[k].at <= limit
  }

  /** Idling was judged right: nobody had used the container within the idle timeout. */
  ghost predicate IdleThen(why: Why, before: seq<Event>, c: nat, limits: Limits) {
    why.Idle? ==> why.seen <= |before| && Untouched(before[..why.seen], c, why.judged - limits.idle)
  }

  /**
   * Making room and idling out only stop containers nobody holds, idling out only after lying idle; a lease ends early
   * only after lying untouched.
   */
  ghost predicate Justified(e: Event, before: seq<Event>, limits: Limits) {
    match e
    case Stopped(c, why) => (why.Evicted? || why.Idle? ==> Holders(before, c) == {}) && IdleThen(why, before, c, limits)
    case Expired(c, at) => Untouched(before, c, at - limits.lease)
    case _ => true
  }

  ghost predicate Journal(log: seq<Event>, limits: Limits) {
    forall k :: 0 <= k < |log| ==> Justified(log[k], log[..k], limits)
  }

  ghost predicate Fresh(log: seq<Event>, made: nat) {
    forall k :: 0 <= k < |log| ==> log[k].container < made
  }

  /** No event is dated later than now. */
  predicate DatedBy(e: Event, now: int) {
    match e
    case Leased(_, _, at) => at <= now
    case Released(_, _, at) => at <= now
    case Used(_, at) => at <= now
    case Found(_, at) => at <= now
    case Expired(_, at) => at <= now
    case Stopped(_, why) => why.Idle? ==> why.judged <= now
  }

  ghost predicate Dated(log: seq<Event>, now: int) {
    forall k :: 0 <= k < |log| ==> DatedBy(log[k], now)
  }

  ghost predicate Distinct(slot: Slots, made: nat) {
    && (forall t :: t in slot ==> slot[t].container < made)
    && (forall t, u :: t in slot && u in slot && slot[t].container == slot[u].container ==> t == u)
  }

  /** A slot agrees with the events: its holders, and its time of last use. */
  ghost predicate SlotAgrees(one: Slot, log: seq<Event>) {
    one.holders == Holders(log, one.container) && Untouched(log, one.container, one.lastUsed)
  }

  ghost predicate Agrees(slot: Slots, log: seq<Event>) {
    forall t :: t in slot ==> SlotAgrees(slot[t], log)
  }

  function Containers(slot: Slots): set<nat> {
    set t | t in slot :: slot[t].container
  }

  /** Whatever is listed runs; whatever runs has been made. */
  ghost predicate Runs(slot: Slots, running: set<nat>, made: nat) {
    && (forall t :: t in slot ==> slot[t].container in running)
    && (forall c :: c in running ==> c < made)
  }

  ghost predicate Timely(slot: Slots, now: int) {
    forall t :: t in slot ==> slot[t].lastUsed <= now
  }

  /** No thread is waited for twice, and none is both waited for and served. */
  ghost predicate Alone(slot: Slots, waiting: Waiters, starting: Option<string>) {
    && (forall w :: w in waiting ==> waiting[w].thread !in slot && Some(waiting[w].thread) != starting)
    && (forall w, v :: w in waiting && v in waiting && waiting[w].thread == waiting[v].thread ==> w == v)
    && (starting.Some? ==> starting.value !in slot)
  }

  /** The queue and its waiters. */
  ghost predicate Line(queue: seq<nat>, waiting: Waiters, grants: seq<nat>, told: seq<Call>, next: nat) {
    && Fifo(grants, queue, next)
    && Futures(queue, waiting, grants, next)
    && Steady(told) && Ahead(told, queue, next)
  }

  /** The slots, the containers and their history. */
  ghost predicate House(slot: Slots, log: seq<Event>, running: set<nat>, made: nat, now: int, limits: Limits) {
    && Timely(slot, now) && Dated(log, now)
    && Journal(log, limits) && Fresh(log, made)
    && Distinct(slot, made) && Agrees(slot, log)
    && Runs(slot, running, made)
  }

  ghost predicate Inv(s: State, limits: Limits) {
    && Fits(s.slot, s.reserved, s.starting, s.waiting, s.cap)
    && Line(s.queue, s.waiting, s.grants, s.told, s.next)
    && House(s.slot, s.log, s.running, s.made, s.now, limits)
    && (s.serial ==> Alone(s.slot, s.waiting, s.starting))
  }

  // ---- Sizes ----

  lemma GrantedWithout(waiting: Waiters, w: nat)
    requires w in waiting
    ensures GrantedSet(waiting - {w}) == GrantedSet(waiting) - {w}
    ensures |GrantedSet(waiting - {w})| == |GrantedSet(waiting)| - if waiting[w].future.Granted? then 1 else 0
  {}

  lemma GrantedWith(waiting: Waiters, w: nat, waiter: Waiter)
    requires w in waiting ==> !waiting[w].future.Granted?
    ensures |GrantedSet(waiting[w := waiter])| == |GrantedSet(waiting)| + if waiter.future.Granted? then 1 else 0
  {
    if waiter.future.Granted? {
      assert GrantedSet(waiting[w := waiter]) == GrantedSet(waiting) + {w};
    } else {
      assert GrantedSet(waiting[w := waiter]) == GrantedSet(waiting);
    }
  }

  // ---- Queues ----

  /** The queue without one ticket. */
  function Without(queue: seq<nat>, w: nat): seq<nat> {
    if queue == [] then []
    else if queue[0] == w then queue[1..]
    else [queue[0]] + Without(queue[1..], w)
  }

  /** Every element stays, no later than it was, and in the same order. */
  ghost predicate Thinned(a: seq<nat>, b: seq<nat>) {
    && (forall w :: w in b ==> w in a)
    && (forall i, k :: 0 <= i < |a| && 0 <= k < |b| && a[i] == b[k] ==> k <= i)
  }

  lemma {:induction false} WithoutIs(queue: seq<nat>, w: nat)
    requires Rising(queue)
    ensures Rising(Without(queue, w)) && Thinned(queue, Without(queue, w))
    ensures forall v :: v in Without(queue, w) <==> v in queue && v != w
  {
    if queue == [] {
    } else {
      TailOf(queue);
      WithoutIs(queue[1..], w);
      if queue[0] == w {
        ThinnedTail(queue);
      } else {
        ThinnedCons(queue, Without(queue[1..], w));
      }
    }
  }

  lemma TailOf(queue: seq<nat>)
    requires queue != [] && Rising(queue)
    ensures Rising(queue[1..])
    ensures forall v :: v in queue[1..] <==> v in queue && v != queue[0]
  {}

  lemma ThinnedTail(queue: seq<nat>)
    requires queue != [] && Rising(queue)
    ensures Thinned(queue, queue[1..])
  {}

  lemma ThinnedCons(queue: seq<nat>, rest: seq<nat>)
    requires queue != [] && Rising(queue) && Rising(rest) && Thinned(queue[1..], rest)
    ensures Rising([queue[0]] + rest) && Thinned(queue, [queue[0]] + rest)
  {
    var b := [queue[0]] + rest;
    TailOf(queue);
    forall k | 0 <= k < |rest| ensures queue[0] < rest[k] {
      assert rest[k] in queue[1..];
      var i :| 0 <= i < |queue[1..]| && queue[1..][i] == rest[k];
      assert queue[i + 1] == rest[k];
    }
    forall i, k | 0 <= i < |queue| && 0 <= k < |b| && queue[i] == b[k] ensures k <= i {
      if k > 0 && i > 0 {
        assert queue[1..][i - 1] == rest[k - 1];
      }
    }
  }

  lemma FifoThinned(grants: seq<nat>, queue: seq<nat>, rest: seq<nat>, next: nat)
    requires Fifo(grants, queue, next) && Rising(rest) && forall w :: w in rest ==> w in queue
    ensures Fifo(grants, rest, next)
  {
    var a, b := grants + queue, grants + rest;
    forall k | 0 <= k < |b|
      ensures b[k] < next && (k >= |grants| ==> forall i :: 0 <= i < |grants| ==> grants[i] < b[k])
    {
      if k >= |grants| {
        assert b[k] in queue;
        var j :| 0 <= j < |queue| && queue[j] == b[k];
        assert a[|grants| + j] == b[k];
        forall i | 0 <= i < |grants| ensures grants[i] < b[k] {
          assert a[i] == grants[i];
        }
      } else {
        assert a[k] == b[k];
      }
    }
    forall i, j | 0 <= i < j < |b| ensures b[i] < b[j] {
      if j < |grants| {
        assert a[i] == b[i] && a[j] == b[j];
      } else if i >= |grants| {
        assert rest[i - |grants|] < rest[j - |grants|];
      }
    }
  }

  lemma QueueRising(grants: seq<nat>, queue: seq<nat>, next: nat)
    requires Fifo(grants, queue, next)
    ensures Rising(queue) && Below(queue, next)
    ensures forall w :: w in queue ==> w !in grants && w < next
    ensures forall w :: w in grants ==> w < next
  {
    var a := grants + queue;
    forall i | 0 <= i < |queue| ensures queue[i] < next {
      assert a[|grants| + i] == queue[i];
    }
    forall i, j | 0 <= i < j < |queue| ensures queue[i] < queue[j] {
      assert a[|grants| + i] == queue[i] && a[|grants| + j] == queue[j];
    }
    forall w | w in queue ensures w !in grants && w < next {
      var j :| 0 <= j < |queue| && queue[j] == w;
      assert a[|grants| + j] == w;
      forall i | 0 <= i < |grants| ensures grants[i] != w {
        assert a[i] == grants[i];
      }
    }
    forall w | w in grants ensures w < next {
      var i :| 0 <= i < |grants| && grants[i] == w;
      assert a[i] == w;
    }
  }

  lemma AheadThinned(told: seq<Call>, queue: seq<nat>, rest: seq<nat>, next: nat)
    requires Ahead(told, queue, next) && Thinned(queue, rest)
    ensures Ahead(told, rest, next)
  {
    forall i, k | 0 <= i < |told| && 0 <= k < |rest| && told[i].ticket == rest[k] ensures k < told[i].position {
      assert rest[k] in queue;
      var j :| 0 <= j < |queue| && queue[j] == rest[k];
    }
  }

  function Calls(queue: seq<nat>): (c: seq<Call>)
    ensures |c| == |queue| && forall k :: 0 <= k < |c| ==> c[k] == Call(queue[k], k + 1)
  {
    seq(|queue|, k requires 0 <= k < |queue| => Call(queue[k], k + 1))
  }

  /** Announcing never tells anyone a worse position. */
  lemma Announcing(told: seq<Call>, queue: seq<nat>, next: nat)
    requires Steady(told) && Ahead(told, queue, next) && Rising(queue) && Below(queue, next)
    ensures Steady(told + Calls(queue)) && Ahead(told + Calls(queue), queue, next)
  {}

  // ---- The event log ----

  lemma HoldersAppend(log: seq<Event>, e: Event, c: nat)
    ensures Holders(log + [e], c) == HoldersAfter(Holders(log, c), e, c)
  {
    assert (log + [e])[..|log|] == log;
  }

  lemma UntouchedAppend(log: seq<Event>, e: Event, c: nat, limit: int)
    requires Untouched(log, c, limit)
    requires IsUse(e) && e.container == c ==> e.at <= limit
    ensures Untouched(log + [e], c, limit)
  {
    var after := log + [e];
    forall k | 0 <= k < |after| && IsUse(after[k]) && after[k].container == c ensures after[k].at <= limit {
      if k < |log| {
        assert after[k] == log[k];
      }
    }
  }

  lemma UntouchedLater(log: seq<Event>, c: nat, limit: int, later: int)
    requires Untouched(log, c, limit) && limit <= later
    ensures Untouched(log, c, later)
  {}

  lemma JournalAppend(log: seq<Event>, e: Event, limits: Limits, made: nat)
    requires Journal(log, limits) && Fresh(log, made) && Justified(e, log, limits) && e.container < made
    ensures Journal(log + [e], limits) && Fresh(log + [e], made)
  {
    var after := log + [e];
    assert after[..|log|] == log;
    forall k | 0 <= k < |after| ensures Justified(after[k], after[..k], limits) {
      if k < |log| {
        assert after[..k] == log[..k];
        assert Justified(log[k], log[..k], limits);
      }
    }
  }

  /** A container not yet made has no history. */
  lemma {:induction false} NoHistory(log: seq<Event>, c: nat, limit: int)
    requires Fresh(log, c)
    ensures Holders(log, c) == {} && Untouched(log, c, limit)
  {
    if log == [] {
    } else {
      NoHistory(log[..|log| - 1], c, limit);
    }
  }

  /** An event of another container changes nothing for a slot. */
  lemma AgreesElsewhere(one: Slot, log: seq<Event>, e: Event)
    requires SlotAgrees(one, log) && e.container != one.container
    ensures SlotAgrees(one, log + [e])
  {
    HoldersAppend(log, e, one.container);
    UntouchedAppend(log, e, one.container, one.lastUsed);
  }

  /** The slots after an event of the container at t, or of a container in no slot. */
  lemma AgreesAppend(slot: Slots, log: seq<Event>, e: Event, made: nat, t: string)
    requires Agrees(slot, log) && Distinct(slot, made)
    requires t in slot ==> slot[t].container == e.container
    requires t !in slot ==> e.container >= made
    ensures forall u :: u in slot && u != t ==> SlotAgrees(slot[u], log + [e])
  {
    forall u | u in slot && u != t ensures SlotAgrees(slot[u], log + [e]) {
      assert slot[u].container != e.container;
      AgreesElsewhere(slot[u], log, e);
    }
  }

  lemma DistinctWith(slot: Slots, made: nat, t: string, one: Slot)
    requires Distinct(slot, made) && t in slot && one.container == slot[t].container
    ensures Distinct(slot[t := one], made)
  {
    var more := slot[t := one];
    forall u, v | u in more && v in more && more[u].container == more[v].container ensures u == v {
      assert u != t ==> more[u] == slot[u];
      assert v != t ==> more[v] == slot[v];
    }
  }

  /** One slot changes, with the event that says so. */
  lemma HouseNoted(slot: Slots, log: seq<Event>, running: set<nat>, made: nat, now: int, limits: Limits,
                   t: string, one: Slot, e: Event)
    requires House(slot, log, running, made, now, limits) && t in slot
    requires one.container == slot[t].container == e.container && one.lastUsed <= now && DatedBy(e, now)
    requires Justified(e, log, limits) && SlotAgrees(one, log + [e])
    ensures House(slot[t := one], log + [e], running, made, now, limits)
  {
    JournalAppend(log, e, limits, made);
    DatedAppend(log, e, now);
    DistinctWith(slot, made, t, one);
    AgreesWith(slot, log, e, made, t, one);
  }

  lemma DatedAppend(log: seq<Event>, e: Event, now: int)
    requires Dated(log, now) && DatedBy(e, now)
    ensures Dated(log + [e], now)
  {}

  lemma AgreesWith(slot: Slots, log: seq<Event>, e: Event, made: nat, t: string, one: Slot)
    requires Agrees(slot, log) && Distinct(slot, made) && t in slot && slot[t].container == e.container
    requires SlotAgrees(one, log + [e])
    ensures Agrees(slot[t := one], log + [e])
  {
    AgreesAppend(slot, log, e, made, t);
    var more := slot[t := one];
    forall u | u in more ensures SlotAgrees(more[u], log + [e]) {
      if u != t {
        assert SlotAgrees(slot[u], log + [e]);
      }
    }
  }

  /** A new container takes a slot. */
  lemma HouseNew(slot: Slots, log: seq<Event>, running: set<nat>, made: nat, now: int, limits: Limits,
                 t: string, one: Slot, e: Event)
    requires House(slot, log, running, made, now, limits)
    requires (e.Leased? || e.Found?) && one.container == made == e.container && one.lastUsed == now == e.at
    requires one.holders == if e.Leased? then {e.holder} else {}
    ensures House(slot[t := one], log + [e], running + {made}, made + 1, now, limits)
  {
    FreshMore(log, made);
    JournalAppend(log, e, limits, made + 1);
    DatedAppend(log, e, now);
    AgreesNew(slot, log, made, t, one, e);
    DistinctNew(slot, made, t, one);
    RunsNew(slot, running, made, t, one);
  }

  lemma AgreesNew(slot: Slots, log: seq<Event>, made: nat, t: string, one: Slot, e: Event)
    requires Agrees(slot, log) && Distinct(slot, made) && Fresh(log, made)
    requires (e.Leased? || e.Found?) && one.container == made == e.container && one.lastUsed == e.at
    requires one.holders == if e.Leased? then {e.holder} else {}
    ensures Agrees(slot[t := one], log + [e])
  {
    NoHistory(log, made, e.at);
    HoldersAppend(log, e, made);
    UntouchedAppend(log, e, made, e.at);
    var more := slot[t := one];
    forall u | u in more ensures SlotAgrees(more[u], log + [e]) {
      if u != t {
        assert SlotAgrees(slot[u], log);
        AgreesElsewhere(slot[u], log, e);
      }
    }
  }

  lemma DistinctNew(slot: Slots, made: nat, t: string, one: Slot)
    requires Distinct(slot, made) && one.container == made
    ensures Distinct(slot[t := one], made + 1)
  {
    var more := slot[t := one];
    forall u, v | u in more && v in more && more[u].container == more[v].container ensures u == v {
      assert u != t ==> more[u] == slot[u];
      assert v != t ==> more[v] == slot[v];
    }
  }

  lemma RunsNew(slot: Slots, running: set<nat>, made: nat, t: string, one: Slot)
    requires Runs(slot, running, made) && one.container == made
    ensures Runs(slot[t := one], running + {made}, made + 1)
  {
    var more := slot[t := one];
    forall u | u in more ensures more[u].container in running + {made} {
      assert u != t ==> slot[u].container in running;
    }
  }

  /** A slot leaves. */
  lemma HousePopped(slot: Slots, log: seq<Event>, running: set<nat>, made: nat, now: int, limits: Limits,
                    t: string, why: Why)
    requires House(slot, log, running, made, now, limits) && t in slot
    requires why.Evicted? || why.Idle? ==> slot[t].holders == {}
    requires IdleThen(why, log, slot[t].container, limits) && (why.Idle? ==> why.judged <= now)
    ensures House(slot - {t}, log + [Stopped(slot[t].container, why)], running - {slot[t].container}, made, now, limits)
  {
    var e := Stopped(slot[t].container, why);
    assert SlotAgrees(slot[t], log);
    JournalAppend(log, e, limits, made);
    DatedAppend(log, e, now);
    AgreesAppend(slot, log, e, made, t);
  }

  lemma HouseLater(slot: Slots, log: seq<Event>, running: set<nat>, made: nat, now: int, limits: Limits, later: nat)
    requires House(slot, log, running, made, now, limits)
    ensures House(slot, log, running, made, now + later, limits)
  {}

  /** A container that was started and never listed. */
  lemma HouseTorn(slot: Slots, log: seq<Event>, running: set<nat>, made: nat, now: int, limits: Limits)
    requires House(slot, log, running, made, now, limits)
    ensures House(slot, log, running + {made}, made + 1, now, limits)
  {
    FreshMore(log, made);
  }

  lemma FreshMore(log: seq<Event>, made: nat)
    requires Fresh(log, made)
    ensures Fresh(log, made + 1)
  {}

  // ---- The lock-free steps ----

  /** current: refresh the time of last use. */
  function Touched(s: State, t: string): State {
    if t in s.slot then
      s.(slot := s.slot[t := s.slot[t].(lastUsed := s.now)], log := s.log + [Used(s.slot[t].container, s.now)])
    else s
  }

  /** A timeout or a cancellation reaches the future of a waiter. */
  function Cancelling(s: State, w: nat): State
    requires w in s.waiting
  {
    s.(waiting := s.waiting[w := s.waiting[w].(future := Cancelled)])
  }

  function Announced(s: State): State {
    s.(told := s.told + Calls(s.queue))
  }

  /** _abandon: give the place back if it was granted, else leave the queue; tell the others. */
  function Abandoned(s: State, w: nat): State
    requires w in s.waiting
  {
    Announced(
      if s.waiting[w].future.Granted? then s.(reserved := s.reserved - 1, waiting := s.waiting - {w})
      else s.(queue := Without(s.queue, w), waiting := s.waiting - {w}))
  }

  /** A granted waiter cancelled while it waits for the lock: its place is never given back. */
  function Forgotten(s: State, w: nat): State {
    s.(waiting := s.waiting - {w})
  }

  /** A slot's holders or time change, with the event that says so. */
  lemma KeepNoted(s: State, limits: Limits, t: string, one: Slot, e: Event)
    requires Inv(s, limits) && t in s.slot && one.container == s.slot[t].container == e.container
    requires Justified(e, s.log, limits) && one.holders == HoldersAfter(s.slot[t].holders, e, e.container)
    requires DatedBy(e, s.now)
    requires if IsUse(e) then one.lastUsed == s.now == e.at else one.lastUsed == s.slot[t].lastUsed
    ensures Inv(s.(slot := s.slot[t := one], log := s.log + [e]), limits)
  {
    var c := e.container;
    assert SlotAgrees(s.slot[t], s.log) && s.slot[t].lastUsed <= s.now;
    HoldersAppend(s.log, e, c);
    UntouchedLater(s.log, c, s.slot[t].lastUsed, one.lastUsed);
    UntouchedAppend(s.log, e, c, one.lastUsed);
    HouseNoted(s.slot, s.log, s.running, s.made, s.now, limits, t, one, e);
    SizeWith(s.slot, t, one);
    AloneSameKeys(s.slot, s.slot[t := one], s.waiting, s.starting);
  }

  lemma AloneSameKeys(a: Slots, b: Slots, waiting: Waiters, starting: Option<string>)
    requires a.Keys == b.Keys
    ensures Alone(a, waiting, starting) <==> Alone(b, waiting, starting)
  {
    assert forall t :: t in a <==> t in b;
  }

  lemma KeepTouched(s: State, limits: Limits, t: string)
    requires Inv(s, limits)
    ensures Inv(Touched(s, t), limits)
  {
    if t in s.slot {
      KeepNoted(s, limits, t, s.slot[t].(lastUsed := s.now), Used(s.slot[t].container, s.now));
    }
  }

  lemma KeepCancelling(s: State, limits: Limits, w: nat)
    requires Inv(s, limits) && w in s.waiting && s.waiting[w].future.Pending?
    ensures Inv(Cancelling(s, w), limits)
  {
    GrantedWith(s.waiting, w, s.waiting[w].(future := Cancelled));
  }

  lemma KeepAnnounced(s: State, limits: Limits)
    requires Inv(s, limits)
    ensures Inv(Announced(s), limits)
  {
    QueueRising(s.grants, s.queue, s.next);
    Announcing(s.told, s.queue, s.next);
  }

  lemma KeepForgotten(s: State, limits: Limits, w: nat)
    requires Inv(s, limits) && w in s.waiting && s.waiting[w].future.Granted?
    ensures Inv(Forgotten(s, w), limits)
  {
    GrantedWithout(s.waiting, w);
  }

  lemma FuturesWithout(s: State, w: nat, queue: seq<nat>)
    requires Futures(s.queue, s.waiting, s.grants, s.next)
    requires forall v :: v in queue <==> v in s.queue && v != w
    ensures Futures(queue, s.waiting - {w}, s.grants, s.next)
  {}

  lemma KeepAbandoned(s: State, limits: Limits, w: nat)
    requires Inv(s, limits) && w in s.waiting && !s.waiting[w].future.Pending?
    ensures Inv(Abandoned(s, w), limits)
  {
    AbandonedBefore(s, limits, w);
    KeepAnnounced(if s.waiting[w].future.Granted? then s.(reserved := s.reserved - 1, waiting := s.waiting - {w})
                  else s.(queue := Without(s.queue, w), waiting := s.waiting - {w}), limits);
  }

  // ---- The steps under the lock ----

  /** A slot leaves the books and its container is stopped. */
  function Popped(s: State, t: string, why: Why): State
    requires t in s.slot
  {
    s.(slot := s.slot - {t}, log := s.log + [Stopped(s.slot[t].container, why)],
       running := s.running - {s.slot[t].container})
  }

  /** The head of the queue is promised a place; if its future is already cancelled, the place is lost. */
  function Granting(s: State): State
    requires s.queue != [] && s.queue[0] in s.waiting
  {
    var w := s.queue[0];
    if s.waiting[w].future.Pending? then
      s.(queue := s.queue[1..], reserved := s.reserved + 1, grants := s.grants + [w],
         waiting := s.waiting[w := s.waiting[w].(future := Granted)])
    else s.(queue := s.queue[1..], reserved := s.reserved + 1)
  }

  /** The queue emptied while room was being made: the place is counted, then nobody is there to take it. */
  function Leaking(s: State): State {
    s.(reserved := s.reserved + 1)
  }

  /** Shutdown sends the head of the queue away. */
  function Dismissed(s: State): State
    requires s.queue != [] && s.queue[0] in s.waiting
  {
    var w := s.queue[0];
    s.(queue := s.queue[1..], waiting := s.waiting[w := s.waiting[w].(future := Cancelled)])
  }

  function Enqueued(s: State, t: string): State {
    s.(queue := s.queue + [s.next], waiting := s.waiting[s.next := Waiter(t, Pending)], next := s.next + 1)
  }

  /** A granted waiter turns its promise into a start. */
  function Resumed(s: State, w: nat): State
    requires w in s.waiting
  {
    s.(reserved := s.reserved - 1, waiting := s.waiting - {w}, starting := Some(s.waiting[w].thread))
  }

  function Starting(s: State, t: string): State {
    s.(starting := Some(t))
  }

  function StartFailed(s: State): State {
    s.(starting := None)
  }

  /** The caller is cancelled at the await of the start: the container comes up all the same, and no slot lists it. */
  function Torn(s: State): State {
    s.(starting := None, made := s.made + 1, running := s.running + {s.made})
  }

  function Put(s: State, t: string, h: string): State {
    s.(slot := s.slot[t := Slot(s.made, {h}, s.now)], made := s.made + 1, running := s.running + {s.made},
       log := s.log + [Leased(s.made, h, s.now)], starting := None)
  }

  function Joined(s: State, t: string, h: string): State
    requires t in s.slot
  {
    s.(slot := s.slot[t := s.slot[t].(holders := s.slot[t].holders + {h}, lastUsed := s.now)],
       log := s.log + [Leased(s.slot[t].container, h, s.now)])
  }

  function Left(s: State, t: string, h: string): State
    requires t in s.slot
  {
    s.(slot := s.slot[t := s.slot[t].(holders := s.slot[t].holders - {h}, lastUsed := s.now)],
       log := s.log + [Released(s.slot[t].container, h, s.now)])
  }

  function LeaseExpired(s: State, t: string): State
    requires t in s.slot
  {
    s.(slot := s.slot[t := s.slot[t].(holders := {})],
       log := s.log + [Expired(s.slot[t].container, s.now)])
  }

  function Max(a: int, b: int): int {
    if a < b then b else a
  }

  /** A container found running at start-up; the bound grows with it. */
  function Adopted(s: State, t: string): State {
    var slot := s.slot[t := Slot(s.made, {}, s.now)];
    s.(slot := slot, made := s.made + 1, running := s.running + {s.made}, log := s.log + [Found(s.made, s.now)],
       cap := if s.cap < |slot| then |slot| else s.cap)
  }

  /** Note whether an acquire of t is the only one in progress. */
  function Entering(s: State, t: string): State {
    s.(serial := s.serial && forall w :: w in s.waiting ==> s.waiting[w].thread != t)
  }

  lemma KeepPopped(s: State, limits: Limits, t: string, why: Why)
    requires Inv(s, limits) && t in s.slot
    requires why.Evicted? || why.Idle? ==> s.slot[t].holders == {}
    requires IdleThen(why, s.log, s.slot[t].container, limits) && (why.Idle? ==> why.judged <= s.now)
    ensures Inv(Popped(s, t, why), limits)
  {
    SizeWithout(s.slot, t);
    HousePopped(s.slot, s.log, s.running, s.made, s.now, limits, t, why);
  }

  lemma FifoGrant(grants: seq<nat>, queue: seq<nat>, next: nat)
    requires Fifo(grants, queue, next) && queue != []
    ensures Fifo(grants + [queue[0]], queue[1..], next)
  {
    assert grants + [queue[0]] + queue[1..] == grants + queue;
  }

  lemma FuturesGrant(s: State)
    requires Futures(s.queue, s.waiting, s.grants, s.next) && Fifo(s.grants, s.queue, s.next) && s.queue != []
    ensures s.queue[0] in s.waiting
    ensures Futures(Granting(s).queue, Granting(s).waiting, Granting(s).grants, s.next)
  {
    var w := s.queue[0];
    assert w in s.queue;
    QueueRising(s.grants, s.queue, s.next);
    TailOf(s.queue);
    var g := Granting(s);
    assert s.waiting[w].future.Pending? ==> g.grants[|s.grants|] == w;
    assert s.waiting[w].future.Pending? ==> forall v :: v in s.grants ==> v in g.grants;
    forall v | v in g.waiting ensures FutureOk(v, g.waiting[v], g.queue, g.grants, s.next) {
      assert FutureOk(v, s.waiting[v], s.queue, s.grants, s.next);
    }
  }

  lemma KeepGranting(s: State, limits: Limits)
    requires Inv(s, limits) && s.queue != [] && |s.slot| + s.reserved + Busy(s.starting) < s.cap
    ensures s.queue[0] in s.waiting && Inv(Granting(s), limits)
  {
    var w := s.queue[0];
    FuturesGrant(s);
    QueueRising(s.grants, s.queue, s.next);
    ThinnedTail(s.queue);
    TailOf(s.queue);
    AheadThinned(s.told, s.queue, s.queue[1..], s.next);
    assert w in s.queue;
    if s.waiting[w].future.Pending? {
      FifoGrant(s.grants, s.queue, s.next);
      GrantedWith(s.waiting, w, s.waiting[w].(future := Granted));
    } else {
      FifoThinned(s.grants, s.queue, s.queue[1..], s.next);
    }
  }

  lemma KeepDismissed(s: State, limits: Limits)
    requires Inv(s, limits) && s.queue != [] && s.queue[0] in s.waiting
    ensures Inv(Dismissed(s), limits)
  {
    var w := s.queue[0];
    assert w in s.queue;
    QueueRising(s.grants, s.queue, s.next);
    ThinnedTail(s.queue);
    TailOf(s.queue);
    AheadThinned(s.told, s.queue, s.queue[1..], s.next);
    FifoThinned(s.grants, s.queue, s.queue[1..], s.next);
    GrantedWith(s.waiting, w, s.waiting[w].(future := Cancelled));
    forall v | v in s.waiting && v != w ensures FutureOk(v, s.waiting[v], s.queue[1..], s.grants, s.next) {
      assert FutureOk(v, s.waiting[v], s.queue, s.grants, s.next);
    }
  }

  lemma KeepLeaking(s: State, limits: Limits)
    requires Inv(s, limits) && |s.slot| + s.reserved + Busy(s.starting) < s.cap
    ensures Inv(Leaking(s), limits)
  {}

  lemma FifoEnqueue(grants: seq<nat>, queue: seq<nat>, next: nat)
    requires Fifo(grants, queue, next)
    ensures Fifo(grants, queue + [next], next + 1)
  {
    assert grants + (queue + [next]) == grants + queue + [next];
  }

  lemma FuturesEnqueue(s: State, t: string)
    requires Futures(s.queue, s.waiting, s.grants, s.next) && Fifo(s.grants, s.queue, s.next)
    ensures Futures(Enqueued(s, t).queue, Enqueued(s, t).waiting, s.grants, s.next + 1)
  {}

  lemma NextIsNew(s: State)
    requires Futures(s.queue, s.waiting, s.grants, s.next)
    ensures s.next !in s.waiting
  {
    assert forall w :: w in s.waiting ==> FutureOk(w, s.waiting[w], s.queue, s.grants, s.next) && w < s.next;
  }

  lemma KeepEnqueued(s: State, limits: Limits, t: string)
    requires Inv(s, limits)
    requires s.serial ==>
               && t !in s.slot && Some(t) != s.starting
               && forall w :: w in s.waiting ==> s.waiting[w].thread != t
    ensures Inv(Enqueued(s, t), limits)
  {
    FifoEnqueue(s.grants, s.queue, s.next);
    FuturesEnqueue(s, t);
    NextIsNew(s);
    GrantedWith(s.waiting, s.next, Waiter(t, Pending));
  }

  lemma KeepResumed(s: State, limits: Limits, w: nat)
    requires Inv(s, limits) && w in s.waiting && s.waiting[w].future.Granted? && s.starting.None?
    ensures Inv(Resumed(s, w), limits)
  {
    GrantedWithout(s.waiting, w);
  }

  lemma KeepStarting(s: State, limits: Limits, t: string)
    requires Inv(s, limits) && s.starting.None? && |s.slot| + s.reserved < s.cap
    requires s.serial ==> t !in s.slot && forall w :: w in s.waiting ==> s.waiting[w].thread != t
    ensures Inv(Starting(s, t), limits)
  {}

  lemma KeepStartFailed(s: State, limits: Limits)
    requires Inv(s, limits)
    ensures Inv(StartFailed(s), limits)
  {}

  lemma KeepTorn(s: State, limits: Limits)
    requires Inv(s, limits)
    ensures Inv(Torn(s), limits)
  {
    HouseTorn(s.slot, s.log, s.running, s.made, s.now, limits);
  }

  lemma KeepPut(s: State, limits: Limits, h: string)
    requires Inv(s, limits) && s.starting.Some?
    ensures Inv(Put(s, s.starting.value, h), limits)
  {
    var t, one := s.starting.value, Slot(s.made, {h}, s.now);
    SizeWith(s.slot, t, one);
    HouseNew(s.slot, s.log, s.running, s.made, s.now, limits, t, one, Leased(s.made, h, s.now));
  }

  lemma KeepJoined(s: State, limits: Limits, t: string, h: string)
    requires Inv(s, limits) && t in s.slot
    ensures Inv(Joined(s, t, h), limits)
  {
    KeepNoted(s, limits, t, Joined(s, t, h).slot[t], Leased(s.slot[t].container, h, s.now));
  }

  lemma KeepLeft(s: State, limits: Limits, t: string, h: string)
    requires Inv(s, limits) && t in s.slot
    ensures Inv(Left(s, t, h), limits)
  {
    KeepNoted(s, limits, t, Left(s, t, h).slot[t], Released(s.slot[t].container, h, s.now));
  }

  lemma KeepLeaseExpired(s: State, limits: Limits, t: string)
    requires Inv(s, limits) && t in s.slot && s.slot[t].lastUsed <= s.now - limits.lease
    ensures Inv(LeaseExpired(s, t), limits)
  {
    assert SlotAgrees(s.slot[t], s.log);
    UntouchedLater(s.log, s.slot[t].container, s.slot[t].lastUsed, s.now - limits.lease);
    KeepNoted(s, limits, t, LeaseExpired(s, t).slot[t], Expired(s.slot[t].container, s.now));
  }

  lemma KeepAdopted(s: State, limits: Limits, t: string)
    requires Inv(s, limits) && t !in s.slot && s.waiting == map[] && s.starting.None? && s.reserved == 0
    ensures Inv(Adopted(s, t), limits)
  {
    var one := Slot(s.made, {}, s.now);
    SizeWith(s.slot, t, one);
    HouseNew(s.slot, s.log, s.running, s.made, s.now, limits, t, one, Found(s.made, s.now));
  }

  lemma KeepEntering(s: State, limits: Limits, t: string)
    requires Inv(s, limits)
    ensures Inv(Entering(s, t), limits)
  {}

  // ---- What can happen at an await, and while serving the queue ----

  /** The same container and holders, perhaps used since. */
  ghost predicate Aged(a: Slot, b: Slot) {
    a.container == b.container && a.holders == b.holders && a.lastUsed <= b.lastUsed
  }

  ghost predicate SameWaiters(a: Waiters, b: Waiters) {
    forall w :: w in b ==> w in a && a[w].thread == b[w].thread
  }

  /** Lock-free steps only: waiters leave, times of use move on, nothing else. */
  ghost predicate Quiet(a: State, b: State) {
    && a.slot.Keys == b.slot.Keys && (forall t :: t in a.slot ==> Aged(a.slot[t], b.slot[t]))
    && (forall w :: w in b.queue ==> w in a.queue)
    && b.reserved <= a.reserved && a.now <= b.now && a.told <= b.told && a.log <= b.log
    && SameWaiters(a.waiting, b.waiting)
    && b == State(b.slot, b.queue, b.reserved, b.waiting, a.next, a.made, b.now, a.starting, b.log, a.grants, b.told,
                  a.running, a.serial, a.cap)
  }

  /** Slots only leave, and only when nobody holds them. */
  ghost predicate Kept(a: Slots, b: Slots) {
    && (forall t :: t in b ==> t in a && Aged(a[t], b[t]))
    && (forall t :: t in a && t !in b ==> a[t].holders == {})
  }

  /** Every container held on another thread is still there, with its holders. */
  ghost predicate Stay(a: Slots, b: Slots, t: string) {
    forall u :: u in a && u != t && a[u].holders != {} ==> u in b && Aged(a[u], b[u])
  }

  lemma StayTransitive(a: Slots, b: Slots, c: Slots, t: string)
    requires Stay(a, b, t) && Stay(b, c, t)
    ensures Stay(a, c, t)
  {}

  lemma StayServed(a: State, b: State, t: string)
    requires Served(a, b)
    ensures Stay(a.slot, b.slot, t)
  {}

  lemma StayPut(a: State, b: State, t: string, h: string)
    requires Quiet(a, b)
    ensures Stay(a.slot, b.slot, t) && Stay(a.slot, Put(b, t, h).slot, t)
  {}

  lemma StayPopped(a: State, b: State, t: string, why: Why)
    requires t in a.slot && Quiet(Popped(a, t, why), b)
    ensures Stay(a.slot, b.slot, t)
  {}

  /** Whatever has gone since was evicted. */
  ghost predicate OnlyEvicted(a: State, b: State) {
    && a.log <= b.log
    && forall t :: t in a.slot && t !in b.slot ==> Stopped(a.slot[t].container, Evicted) in b.log[|a.log|..]
  }

  /** Waiters served from the queue, idle containers given up for them. */
  ghost predicate Served(a: State, b: State) {
    && Kept(a.slot, b.slot) && OnlyEvicted(a, b)
    && (forall w :: w in b.queue ==> w in a.queue)
    && (forall w :: w in b.grants ==> w in a.grants || w in a.queue)
    && a.grants <= b.grants && a.now <= b.now && a.told <= b.told
    && SameWaiters(a.waiting, b.waiting)
    && a.starting == b.starting && a.serial == b.serial && a.cap == b.cap && a.made == b.made && a.next == b.next
  }

  lemma QuietTransitive(a: State, b: State, c: State)
    requires Quiet(a, b) && Quiet(b, c)
    ensures Quiet(a, c)
  {}

  lemma ServedTransitive(a: State, b: State, c: State)
    requires Served(a, b) && Served(b, c)
    ensures Served(a, c)
  {
    forall t | t in a.slot && t !in c.slot ensures Stopped(a.slot[t].container, Evicted) in c.log[|a.log|..] {
      LaterEvicted(a, b, c, t);
    }
  }

  lemma LaterEvicted(a: State, b: State, c: State, t: string)
    requires OnlyEvicted(a, b) && OnlyEvicted(b, c) && t in a.slot && t !in c.slot
    requires t in b.slot ==> a.slot[t].container == b.slot[t].container
    ensures Stopped(a.slot[t].container, Evicted) in c.log[|a.log|..]
  {
    assert c.log[|a.log|..] == b.log[|a.log|..] + c.log[|b.log|..];
  }

  lemma QuietServes(a: State, b: State)
    requires Quiet(a, b)
    ensures Served(a, b)
  {}

  lemma QuietTouched(s: State, limits: Limits, t: string)
    requires Inv(s, limits)
    ensures Quiet(s, Touched(s, t))
  {}

  lemma QuietAbandoned(s: State, limits: Limits, w: nat)
    requires Inv(s, limits) && w in s.waiting
    ensures Quiet(s, Abandoned(s, w))
  {
    WithoutMember(s.queue, w);
  }

  lemma {:induction false} WithoutMember(queue: seq<nat>, w: nat)
    ensures forall v :: v in Without(queue, w) ==> v in queue
  {
    if queue == [] {
    } else {
      WithoutMember(queue[1..], w);
      assert forall v :: v in queue[1..] ==> v in queue;
    }
  }

  lemma QuietCancelling(s: State, w: nat)
    requires w in s.waiting
    ensures Quiet(s, Cancelling(s, w)) && Quiet(s, Forgotten(s, w))
  {}

  lemma QuietTicked(s: State, later: nat)
    ensures Quiet(s, s.(now := s.now + later))
  {}

  lemma PoppedServes(s: State, t: string)
    requires t in s.slot && s.slot[t].holders == {}
    ensures Served(s, Popped(s, t, Evicted))
  {
    assert Popped(s, t, Evicted).log[|s.log|..] == [Stopped(s.slot[t].container, Evicted)];
  }

  lemma GrantingServes(s: State)
    requires s.queue != [] && s.queue[0] in s.waiting
    ensures Served(s, Granting(s))
  {}

  /** The state _abandon announces from. */
  lemma AbandonedBefore(s: State, limits: Limits, w: nat)
    requires Inv(s, limits) && w in s.waiting && !s.waiting[w].future.Pending?
    ensures var b := if s.waiting[w].future.Granted? then s.(reserved := s.reserved - 1, waiting := s.waiting - {w})
                     else s.(queue := Without(s.queue, w), waiting := s.waiting - {w});
            Inv(b, limits)
  {
    GrantedWithout(s.waiting, w);
    if !s.waiting[w].future.Granted? {
      var queue := Without(s.queue, w);
      QueueRising(s.grants, s.queue, s.next);
      WithoutIs(s.queue, w);
      FifoThinned(s.grants, s.queue, queue, s.next);
      AheadThinned(s.told, s.queue, queue, s.next);
      FuturesWithout(s, w, queue);
    }
  }

  lemma KeepTicked(s: State, limits: Limits, later: nat)
    requires Inv(s, limits)
    ensures Inv(s.(now := s.now + later), limits)
  {
    HouseLater(s.slot, s.log, s.running, s.made, s.now, limits, later);
  }

  // ---- Whole runs ----

  datatype Step =
    | Touch(thread: string)
    | Tick(later: nat)
    | Cancel(ticket: nat)
    | Abandon(ticket: nat)
    | Forget(ticket: nat)
    | Announce
    | Pop(thread: string, why: Why)
    | Grant
    | Leak
    | Dismiss
    | Enter(thread: string)
    | Enqueue(thread: string)
    | Resume(ticket: nat)
    | Start(thread: string)
    | Fail
    | Tear
    | Finish(holder: string)
    | Join(thread: string, holder: string)
    | Leave(thread: string, holder: string)
    | Expire(thread: string)
    | Adopt(thread: string)

  ghost predicate Room(s: State) {
    |s.slot| + s.reserved + Busy(s.starting) < s.cap
  }

  /** No acquire of this thread is in progress, if none ever overlapped. */
  ghost predicate Unclaimed(s: State, t: string) {
    s.serial ==> t !in s.slot && Some(t) != s.starting && forall w :: w in s.waiting ==> s.waiting[w].thread != t
  }

  /** When a step can be taken: what the code has just checked, or what the state of the waiter implies. */
  ghost predicate Allowed(s: State, step: Step, limits: Limits) {
    match step
    case Cancel(w) => w in s.waiting && s.waiting[w].future.Pending?
    case Abandon(w) => w in s.waiting && !s.waiting[w].future.Pending?
    case Forget(w) => w in s.waiting && s.waiting[w].future.Granted?
    case Pop(t, why) =>
      && t in s.slot && (why.Evicted? || why.Idle? ==> s.slot[t].holders == {})
      && IdleThen(why, s.log, s.slot[t].container, limits) && (why.Idle? ==> why.judged <= s.now)
    case Grant => s.queue != [] && s.queue[0] in s.waiting && Room(s)
    case Leak => Room(s)
    case Dismiss => s.queue != [] && s.queue[0] in s.waiting
    case Enqueue(t) => Unclaimed(s, t)
    case Resume(w) => w in s.waiting && s.waiting[w].future.Granted? && s.starting.None?
    case Start(t) => s.starting.None? && Room(s) && Unclaimed(s, t)
    case Tear => s.starting.Some?
    case Finish(_) => s.starting.Some?
    case Join(t, _) => t in s.slot
    case Leave(t, _) => t in s.slot
    case Expire(t) => t in s.slot && s.slot[t].lastUsed <= s.now - limits.lease
    case Adopt(t) => t !in s.slot && s.waiting == map[] && s.starting.None? && s.reserved == 0
    case _ => true
  }

  ghost function Next(s: State, step: Step, limits: Limits): State
    requires Allowed(s, step, limits)
  {
    match step
    case Touch(t) => Touched(s, t)
    case Tick(later) => s.(now := s.now + later)
    case Cancel(w) => Cancelling(s, w)
    case Abandon(w) => Abandoned(s, w)
    case Forget(w) => Forgotten(s, w)
    case Announce => Announced(s)
    case Pop(t, why) => Popped(s, t, why)
    case Grant => Granting(s)
    case Leak => Leaking(s)
    case Dismiss => Dismissed(s)
    case Enter(t) => Entering(s, t)
    case Enqueue(t) => Enqueued(s, t)
    case Resume(w) => Resumed(s, w)
    case Start(t) => Starting(s, t)
    case Fail => StartFailed(s)
    case Tear => Torn(s)
    case Finish(h) => Put(s, s.starting.value, h)
    case Join(t, h) => Joined(s, t, h)
    case Leave(t, h) => Left(s, t, h)
    case Expire(t) => LeaseExpired(s, t)
    case Adopt(t) => Adopted(s, t)
  }

  /** Every step, of the lock holder or lock-free, keeps the invariant. */
  lemma StepKeeps(s: State, step: Step, limits: Limits)
    requires Inv(s, limits) && Allowed(s, step, limits)
    ensures Inv(Next(s, step, limits), limits)
  {
    if LineStep(step) {
      LineStepKeeps(s, step, limits);
    } else {
      HouseStepKeeps(s, step, limits);
    }
  }

  /** The steps of waiters and of the queue. */
  predicate LineStep(step: Step) {
    || step.Cancel? || step.Abandon? || step.Forget? || step.Announce? || step.Grant? || step.Leak? || step.Dismiss?
    || step.Enter? || step.Enqueue? || step.Resume?
  }

  lemma LineStepKeeps(s: State, step: Step, limits: Limits)
    requires Inv(s, limits) && Allowed(s, step, limits) && LineStep(step)
    ensures Inv(Next(s, step, limits), limits)
  {
    match step
    case Cancel(w) => KeepCancelling(s, limits, w);
    case Abandon(w) => KeepAbandoned(s, limits, w);
    case Forget(w) => KeepForgotten(s, limits, w);
    case Announce => KeepAnnounced(s, limits);
    case Grant => KeepGranting(s, limits);
    case Leak => KeepLeaking(s, limits);
    case Dismiss => KeepDismissed(s, limits);
    case Enter(t) => KeepEntering(s, limits, t);
    case Enqueue(t) => KeepEnqueued(s, limits, t);
    case Resume(w) => KeepResumed(s, limits, w);
  }

  lemma HouseStepKeeps(s: State, step: Step, limits: Limits)
    requires Inv(s, limits) && Allowed(s, step, limits) && !LineStep(step)
    ensures Inv(Next(s, step, limits), limits)
  {
    match step
    case Touch(t) => KeepTouched(s, limits, t);
    case Tick(later) => KeepTicked(s, limits, later);
    case Pop(t, why) => KeepPopped(s, limits, t, why);
    case Start(t) => KeepStarting(s, limits, t);
    case Fail => KeepStartFailed(s, limits);
    case Tear => KeepTorn(s, limits);
    case Finish(h) => KeepPut(s, limits, h);
    case Join(t, h) => KeepJoined(s, limits, t, h);
    case Leave(t, h) => KeepLeft(s, limits, t, h);
    case Expire(t) => KeepLeaseExpired(s, limits, t);
    case Adopt(t) => KeepAdopted(s, limits, t);
  }

  /** A run from the empty pool, step by step. */
  ghost predicate IsRun(states: seq<State>, steps: seq<Step>, max: nat, limits: Limits) {
    && |states| == |steps| + 1
    && states[0] == NewPool(max)
    && forall i :: 0 <= i < |steps| ==>
         Allowed(states[i], steps[i], limits) && states[i + 1] == Next(states[i], steps[i], limits)
  }

  function NewPool(max: nat): State {
    State(map[], [], 0, map[], 0, 0, 0, None, [], [], [], {}, true, max)
  }

  lemma NewPoolKeeps(max: nat, limits: Limits)
    ensures Inv(NewPool(max), limits)
  {
    assert GrantedSet(map[]) == {};
  }

  lemma RunKeeps(states: seq<State>, steps: seq<Step>, max: nat, limits: Limits, i: nat)
    requires IsRun(states, steps, max, limits) && i < |states|
    ensures Inv(states[i], limits) && max <= states[i].cap
  {
    var ok := (s: State) => Inv(s, limits);
    NewPoolKeeps(max, limits);
    RunKeepsFolded(ok, states, steps, max, limits, i);
    assert At(states[i]);
  }

  lemma {:induction false} RunKeepsFolded(
    ok: State -> bool, states: seq<State>, steps: seq<Step>, max: nat, limits: Limits, i: nat)
    requires IsInv(ok, limits) && ok(NewPool(max)) && IsRun(states, steps, max, limits) && i < |states|
    ensures ok(states[i]) && max <= states[i].cap
  {
    if i == 0 {
    } else {
      RunKeepsFolded(ok, states, steps, max, limits, i - 1);
      Keeps(ok, limits, states[i - 1], steps[i - 1]);
      assert states[i - 1 + 1] == Next(states[i - 1], steps[i - 1], limits);
      CapGrows(states[i - 1], steps[i - 1], limits);
    }
  }

  lemma CapGrows(s: State, step: Step, limits: Limits)
    requires Allowed(s, step, limits)
    ensures s.cap <= Next(s, step, limits).cap && (!step.Adopt? ==> s.cap == Next(s, step, limits).cap)
  {}

  /** The parts of the invariant the books rest on. */
  lemma RunHouse(states: seq<State>, steps: seq<Step>, max: nat, limits: Limits, i: nat)
    requires IsRun(states, steps, max, limits) && i < |states|
    ensures Distinct(states[i].slot, states[i].made) && Runs(states[i].slot, states[i].running, states[i].made)
  {
    RunKeeps(states, steps, max, limits, i);
  }

  /** And the ledger. */
  lemma RunLine(states: seq<State>, steps: seq<Step>, max: nat, limits: Limits, i: nat)
    requires IsRun(states, steps, max, limits) && i < |states|
    ensures Futures(states[i].queue, states[i].waiting, states[i].grants, states[i].next)
  {
    RunKeeps(states, steps, max, limits, i);
  }

  lemma {:induction false} AdoptionPhase(states: seq<State>, steps: seq<Step>, max: nat, limits: Limits, k: nat)
    requires IsRun(states, steps, max, limits) && k <= |steps| && forall j :: 0 <= j < k ==> steps[j].Adopt?
    ensures |states[k].slot| == k && states[k].cap == Max(max, k)
  {
    if k == 0 {
    } else {
      AdoptionPhase(states, steps, max, limits, k - 1);
      var s := states[k - 1];
      SizeWith(s.slot, steps[k - 1].thread, Slot(s.made, {}, s.now));
      assert states[k - 1 + 1] == Next(s, steps[k - 1], limits);
    }
  }

  lemma {:induction false} BoundStays(states: seq<State>, steps: seq<Step>, max: nat, limits: Limits, k: nat, i: nat)
    requires IsRun(states, steps, max, limits) && k <= i <= |steps| && forall j :: k <= j < |steps| ==> !steps[j].Adopt?
    ensures states[i].cap == states[k].cap
  {
    if i == k {
    } else {
      BoundStays(states, steps, max, limits, k, i - 1);
      CapGrows(states[i - 1], steps[i - 1], limits);
      assert states[i - 1 + 1] == Next(states[i - 1], steps[i - 1], limits);
    }
  }

  /**
   * Over any run that adopts k containers at start-up and none later, slots plus promised places never exceed the
   * larger of the limit and k, the running containers exceed that by at most the unlisted ones, and every granted
   * waiter that has not started is covered by a promise.
   */
  lemma Capacity(states: seq<State>, steps: seq<Step>, max: nat, limits: Limits, k: nat, i: nat)
    requires IsRun(states, steps, max, limits) && k <= i <= |steps|
    requires forall j :: 0 <= j < |steps| ==> (steps[j].Adopt? <==> j < k)
    ensures |states[i].slot| + states[i].reserved + Busy(states[i].starting) <= Max(max, k)
    ensures |states[i].running| + states[i].reserved + Busy(states[i].starting) <= Max(max, k) + |Unlisted(states[i])|
    ensures |GrantedSet(states[i].waiting)| <= states[i].reserved
  {
    AdoptionPhase(states, steps, max, limits, k);
    BoundStays(states, steps, max, limits, k, i);
    RunKeeps(states, steps, max, limits, i);
    RunningSize(states[i]);
  }

  lemma RunningSize(s: State)
    ensures |s.running| <= |s.slot| + |Unlisted(s)|
  {
    var listed := s.running * Containers(s.slot);
    assert s.running == listed + Unlisted(s);
    assert |listed| + |Unlisted(s)| == |s.running|;
    SubsetSize(listed, Containers(s.slot));
    ContainersSize(s.slot);
  }

  lemma SubsetSize(a: set<nat>, b: set<nat>)
    requires a <= b
    ensures |a| <= |b|
  {
    assert b == a + (b - a);
  }

  lemma {:induction false} ContainersSize(slot: Slots)
    ensures |Containers(slot)| <= |slot|
    decreases |slot|
  {
    if slot == map[] {
      assert Containers(slot) == {};
    } else {
      var t :| t in slot;
      var rest := slot - {t};
      SizeWithout(slot, t);
      ContainersSize(rest);
      forall c | c in Containers(slot) ensures c in Containers(rest) + {slot[t].container} {
        var u :| u in slot && slot[u].container == c;
        assert u != t ==> rest[u] == slot[u];
      }
      SubsetSize(Containers(slot), Containers(rest) + {slot[t].container});
    }
  }

  /**
   * Over any run, a container is stopped to make room or for idling only when, by the events so far, nobody holds it;
   * for idling only if, when that was judged, no use of it had come within the idle timeout;
   * and a lease is cleared only if no acquire, release, lookup or adoption of its container came within the lease
   * timeout before.
   */
  lemma HeldContainersAreSafe(states: seq<State>, steps: seq<Step>, max: nat, limits: Limits, i: nat, k: nat)
    requires IsRun(states, steps, max, limits) && i < |states| && k < |states[i].log|
    ensures var e, before := states[i].log[k], states[i].log[..k];
            && (e.Stopped? && (e.why.Evicted? || e.why.Idle?) ==> Holders(before, e.container) == {})
            && (e.Stopped? && e.why.Idle? ==>
                  && e.why.judged <= states[i].now && e.why.seen <= k
                  && forall j :: 0 <= j < e.why.seen && IsUse(before[j]) && before[j].container == e.container ==>
                       before[j].at <= e.why.judged - limits.idle)
            && (e.Expired? ==> e.at <= states[i].now)
            && (e.Expired? ==> forall j :: 0 <= j < k && IsUse(before[j]) && before[j].container == e.container ==>
                                 before[j].at <= e.at - limits.lease)
    ensures forall t :: t in states[i].slot ==>
              states[i].slot[t].holders == Holders(states[i].log, states[i].slot[t].container)
  {
    RunKeeps(states, steps, max, limits, i);
    assert Justified(states[i].log[k], states[i].log[..k], limits);
    forall t | t in states[i].slot
      ensures states[i].slot[t].holders == Holders(states[i].log, states[i].slot[t].container) {
      assert SlotAgrees(states[i].slot[t], states[i].log);
    }
  }

  /** Over any run, grants are in order of arrival and no waiter is told a worse position than before. */
  lemma ServiceIsFair(states: seq<State>, steps: seq<Step>, max: nat, limits: Limits, i: nat)
    requires IsRun(states, steps, max, limits) && i < |states|
    ensures Rising(states[i].grants + states[i].queue) && Steady(states[i].told)
  {
    RunKeeps(states, steps, max, limits, i);
  }

  // ---- Which containers the books miss ----

  /** Running, and in no slot. */
  function Unlisted(s: State): set<nat> {
    s.running - Containers(s.slot)
  }

  /** A start that is cancelled at its await, or that takes a slot already taken. */
  predicate Loses(s: State, step: Step) {
    LostBy(s, step) != {}
  }

  /** The container a step takes off the books while it runs. */
  function LostBy(s: State, step: Step): set<nat> {
    if step.Tear? then {s.made}
    else if step.Finish? && s.starting.Some? && s.starting.value in s.slot then {s.slot[s.starting.value].container}
    else {}
  }

  lemma SameContainers(a: Slots, b: Slots)
    requires SameBooks(a, b)
    ensures Containers(a) == Containers(b)
  {
    forall c | c in Containers(a) ensures c in Containers(b) {
      var t :| t in a && a[t].container == c;
      assert t in b && b[t].container == c;
    }
    forall c | c in Containers(b) ensures c in Containers(a) {
      var t :| t in b && b[t].container == c;
      assert t in a && a[t].container == c;
    }
  }

  lemma ContainersWithout(slot: Slots, made: nat, t: string)
    requires Distinct(slot, made) && t in slot
    ensures Containers(slot - {t}) == Containers(slot) - {slot[t].container}
  {
    var less := slot - {t};
    forall c | c in Containers(slot) && c != slot[t].container ensures c in Containers(less) {
      var u :| u in slot && slot[u].container == c;
      assert u in less && less[u].container == c;
    }
    forall c | c in Containers(less) ensures c in Containers(slot) && c != slot[t].container {
      var u :| u in less && less[u].container == c;
      assert u in slot && slot[u].container == c;
    }
  }

  lemma ContainersWith(slot: Slots, t: string, one: Slot)
    ensures Containers(slot[t := one]) == Containers(slot - {t}) + {one.container}
  {
    var more, less := slot[t := one], slot - {t};
    forall c | c in Containers(less) ensures c in Containers(more) {
      var u :| u in less && less[u].container == c;
      assert u in more && more[u].container == c;
    }
    assert t in more && more[t].container == one.container;
    forall c | c in Containers(more) ensures c in Containers(less) + {one.container} {
      var u :| u in more && more[u].container == c;
      assert u != t ==> u in less && less[u].container == c;
    }
  }

  lemma ListedRuns(slot: Slots, running: set<nat>, made: nat)
    requires Runs(slot, running, made)
    ensures Containers(slot) <= running && made !in running
  {
    forall c | c in Containers(slot) ensures c in running {
      var t :| t in slot && slot[t].container == c;
    }
  }

  lemma UnlistedPopped(slot: Slots, running: set<nat>, made: nat, t: string)
    requires Distinct(slot, made) && t in slot
    ensures running - {slot[t].container} - Containers(slot - {t}) == running - Containers(slot)
  {
    ContainersWithout(slot, made, t);
    assert slot[t].container in Containers(slot);
  }

  lemma UnlistedPut(slot: Slots, running: set<nat>, made: nat, t: string, one: Slot)
    requires Distinct(slot, made) && Runs(slot, running, made) && one.container == made
    ensures running + {made} - Containers(slot[t := one]) ==
            running - Containers(slot) + if t in slot then {slot[t].container} else {}
  {
    ListedRuns(slot, running, made);
    ContainersWith(slot, t, one);
    if t in slot {
      ContainersWithout(slot, made, t);
      assert slot[t].container in Containers(slot);
    } else {
      assert slot - {t} == slot;
    }
  }

  /** Each step adds to the unlisted containers exactly what it loses: nothing is ever stopped or listed again. */
  lemma UnlistedNext(s: State, step: Step, limits: Limits)
    requires Distinct(s.slot, s.made) && Runs(s.slot, s.running, s.made) && Allowed(s, step, limits)
    ensures Unlisted(Next(s, step, limits)) == Unlisted(s) + LostBy(s, step)
  {
    if step.Pop? || step.Tear? || step.Finish? || step.Adopt? {
      UnlistedChanged(s, step, limits);
    } else {
      ContainersStay(s, step, limits);
      SameContainers(s.slot, Next(s, step, limits).slot);
    }
  }

  lemma UnlistedChanged(s: State, step: Step, limits: Limits)
    requires Distinct(s.slot, s.made) && Runs(s.slot, s.running, s.made) && Allowed(s, step, limits)
    requires step.Pop? || step.Tear? || step.Finish? || step.Adopt?
    ensures Unlisted(Next(s, step, limits)) == Unlisted(s) + LostBy(s, step)
  {
    match step
    case Pop(t, _) => UnlistedPopped(s.slot, s.running, s.made, t);
    case Tear => ListedRuns(s.slot, s.running, s.made);
    case Finish(h) => UnlistedPut(s.slot, s.running, s.made, s.starting.value, Slot(s.made, {h}, s.now));
    case Adopt(t) => UnlistedPut(s.slot, s.running, s.made, t, Slot(s.made, {}, s.now));
  }

  lemma ContainersStay(s: State, step: Step, limits: Limits)
    requires Allowed(s, step, limits) && !step.Pop? && !step.Tear? && !step.Finish? && !step.Adopt?
    ensures var n := Next(s, step, limits); n.running == s.running && SameBooks(s.slot, n.slot)
  {
    if step.Touch? || step.Join? || step.Leave? || step.Expire? {
      OneSlotChanges(s, step, limits);
    } else {
      SlotsStay(s, step, limits);
    }
  }

  ghost predicate SameBooks(a: Slots, b: Slots) {
    a.Keys == b.Keys && forall t :: t in a ==> a[t].container == b[t].container
  }

  lemma OneSlotChanges(s: State, step: Step, limits: Limits)
    requires Allowed(s, step, limits) && (step.Touch? || step.Join? || step.Leave? || step.Expire?)
    ensures var n := Next(s, step, limits); n.running == s.running && SameBooks(s.slot, n.slot)
  {}

  lemma SlotsStay(s: State, step: Step, limits: Limits)
    requires Allowed(s, step, limits) && !step.Pop? && !step.Tear? && !step.Finish? && !step.Adopt?
    requires !step.Touch? && !step.Join? && !step.Leave? && !step.Expire?
    ensures Next(s, step, limits).slot == s.slot && Next(s, step, limits).running == s.running
  {
    match step
    case Tick(_) =>
    case Cancel(_) =>
    case Abandon(_) =>
    case Forget(_) =>
    case Announce =>
    case Grant =>
    case Leak =>
    case Dismiss =>
    case Enter(_) =>
    case Enqueue(_) =>
    case Resume(_) =>
    case Start(_) =>
    case Fail =>
  }

  ghost predicate Lossless(states: seq<State>, steps: seq<Step>, i: nat)
    requires i <= |steps| && i <= |states|
  {
    forall j :: 0 <= j < i ==> !Loses(states[j], steps[j])
  }

  lemma {:induction false} UnlistedIff(states: seq<State>, steps: seq<Step>, max: nat, limits: Limits, i: nat)
    requires IsRun(states, steps, max, limits) && i < |states|
    ensures Unlisted(states[i]) == {} <==> Lossless(states, steps, i)
  {
    if i == 0 {
      assert Unlisted(NewPool(max)) == {};
    } else {
      UnlistedIff(states, steps, max, limits, i - 1);
      RunHouse(states, steps, max, limits, i - 1);
      UnlistedNext(states[i - 1], steps[i - 1], limits);
      assert states[i - 1 + 1] == Next(states[i - 1], steps[i - 1], limits);
    }
  }

  /** Over any run, the books list exactly the running containers if and only if no step so far has lost one. */
  lemma BooksExactIff(states: seq<State>, steps: seq<Step>, max: nat, limits: Limits, i: nat)
    requires IsRun(states, steps, max, limits) && i < |states|
    ensures states[i].running == Containers(states[i].slot) <==> forall j :: 0 <= j < i ==> !Loses(states[j], steps[j])
  {
    RunHouse(states, steps, max, limits, i);
    ExactIsNoneUnlisted(states[i].slot, states[i].running, states[i].made);
    UnlistedIff(states, steps, max, limits, i);
  }

  lemma ExactIsNoneUnlisted(slot: Slots, running: set<nat>, made: nat)
    requires Runs(slot, running, made)
    ensures running - Containers(slot) == {} <==> running == Containers(slot)
  {
    ListedRuns(slot, running, made);
    if running - Containers(slot) == {} {
      assert running <= Containers(slot) by {
        forall c | c in running ensures c in Containers(slot) {
          assert c !in running - Containers(slot);
        }
      }
    }
  }

  lemma {:induction false} SerialBefore(states: seq<State>, steps: seq<Step>, max: nat, limits: Limits, i: nat, j: nat)
    requires IsRun(states, steps, max, limits) && j <= i < |states| && states[i].serial
    ensures states[j].serial
  {
    if j == i {
    } else {
      assert states[i - 1 + 1] == Next(states[i - 1], steps[i - 1], limits);
      SerialBefore(states, steps, max, limits, i - 1, j);
    }
  }

  /**
   * Over any run whose acquires never overlapped on a thread, no start takes a slot already taken, and the books list
   * exactly the running containers if and only if no caller was cancelled while its container was starting.
   */
  lemma NoContainerIsLost(states: seq<State>, steps: seq<Step>, max: nat, limits: Limits, i: nat)
    requires IsRun(states, steps, max, limits) && i < |states| && states[i].serial
    ensures forall j :: 0 <= j < i && steps[j].Finish? ==> states[j].starting.value !in states[j].slot
    ensures states[i].running == Containers(states[i].slot) <==> forall j :: 0 <= j < i ==> !steps[j].Tear?
  {
    BooksExactIff(states, steps, max, limits, i);
    forall j | 0 <= j < i ensures steps[j].Finish? ==> states[j].starting.value !in states[j].slot {
      SerialBefore(states, steps, max, limits, i, j);
      RunKeeps(states, steps, max, limits, j);
      assert Allowed(states[j], steps[j], limits);
    }
    assert forall j :: 0 <= j < i ==> (Loses(states[j], steps[j]) <==> steps[j].Tear?);
  }

  // ---- The ledger of promised places ----

  /** A place counted for nobody: no waiter left, the waiter cancelled, or the waiter gone before it took the lock. */
  predicate LosesPlace(s: State, step: Step) {
    || step.Leak? || step.Forget?
    || (step.Grant? && s.queue != [] && s.queue[0] in s.waiting && !s.waiting[s.queue[0]].future.Pending?)
  }

  function LostPlaces(states: seq<State>, steps: seq<Step>, i: nat): nat
    requires i <= |steps| && i <= |states|
  {
    if i == 0 then 0 else LostPlaces(states, steps, i - 1) + if LosesPlace(states[i - 1], steps[i - 1]) then 1 else 0
  }

  function Surplus(s: State): int {
    s.reserved - |GrantedSet(s.waiting)|
  }

  lemma SurplusStep(s: State, step: Step, limits: Limits)
    requires Futures(s.queue, s.waiting, s.grants, s.next) && Allowed(s, step, limits)
    ensures Surplus(Next(s, step, limits)) == Surplus(s) + if LosesPlace(s, step) then 1 else 0
  {
    if step.Cancel? || step.Abandon? || step.Forget? || step.Resume? || step.Enqueue? || step.Grant? || step.Dismiss? {
      SurplusChanged(s, step, limits);
    } else {
      LedgerStays(s, step, limits);
    }
  }

  lemma LedgerStays(s: State, step: Step, limits: Limits)
    requires Allowed(s, step, limits) && !step.Cancel? && !step.Abandon? && !step.Forget? && !step.Resume?
    requires !step.Enqueue? && !step.Grant? && !step.Dismiss?
    ensures var n := Next(s, step, limits);
            n.waiting == s.waiting && n.reserved == s.reserved + if step.Leak? then 1 else 0
  {}

  lemma SurplusChanged(s: State, step: Step, limits: Limits)
    requires Futures(s.queue, s.waiting, s.grants, s.next) && Allowed(s, step, limits)
    requires || step.Cancel? || step.Abandon? || step.Forget? || step.Resume? || step.Enqueue? || step.Grant?
             || step.Dismiss?
    ensures Surplus(Next(s, step, limits)) == Surplus(s) + if LosesPlace(s, step) then 1 else 0
  {
    match step
    case Cancel(w) => GrantedWith(s.waiting, w, s.waiting[w].(future := Cancelled));
    case Abandon(w) => GrantedWithout(s.waiting, w);
    case Forget(w) => GrantedWithout(s.waiting, w);
    case Resume(w) => GrantedWithout(s.waiting, w);
    case Enqueue(t) =>
      NextIsNew(s);
      GrantedWith(s.waiting, s.next, Waiter(t, Pending));
    case Grant =>
      assert s.queue[0] in s.queue;
      GrantedWith(s.waiting, s.queue[0], s.waiting[s.queue[0]].(future := Granted));
    case Dismiss =>
      assert s.queue[0] in s.queue;
      GrantedWith(s.waiting, s.queue[0], s.waiting[s.queue[0]].(future := Cancelled));
  }

  /**
   * Over any run, the places promised are the granted waiters not yet started plus the places lost, so the ledger is
   * exact if and only if no place was lost.
   */
  lemma {:induction false} LedgerIs(states: seq<State>, steps: seq<Step>, max: nat, limits: Limits, i: nat)
    requires IsRun(states, steps, max, limits) && i < |states|
    ensures states[i].reserved == |GrantedSet(states[i].waiting)| + LostPlaces(states, steps, i)
    ensures states[i].reserved == |GrantedSet(states[i].waiting)| <==>
            forall j :: 0 <= j < i ==> !LosesPlace(states[j], steps[j])
  {
    if i > 0 {
      LedgerIs(states, steps, max, limits, i - 1);
      RunLine(states, steps, max, limits, i - 1);
      SurplusStep(states[i - 1], steps[i - 1], limits);
      assert states[i - 1 + 1] == Next(states[i - 1], steps[i - 1], limits);
    } else {
      assert GrantedSet(map[]) == {};
    }
  }

  // ---- The invariant kept folded: unfolded only at the states marked with At ----

  ghost predicate At(s: State) {
    true
  }

  ghost predicate IsInv(ok: State -> bool, limits: Limits) {
    forall s {:trigger At(s)} :: At(s) ==> (ok(s) <==> Inv(s, limits))
  }

  lemma Keeps(ok: State -> bool, limits: Limits, s: State, step: Step)
    requires IsInv(ok, limits) && ok(s) && Allowed(s, step, limits)
    ensures ok(Next(s, step, limits))
  {
    assert At(s) && At(Next(s, step, limits));
    StepKeeps(s, step, limits);
  }

  /** The sum that must fit, and the head of the queue. */
  lemma Basics(ok: State -> bool, limits: Limits, s: State)
    requires IsInv(ok, limits) && ok(s)
    ensures |s.slot| + s.reserved + Busy(s.starting) <= s.cap
    ensures s.queue != [] ==> s.queue[0] in s.waiting
    ensures forall w :: w in s.queue ==> w !in s.grants
    ensures s.queue != [] ==> s.queue[0] !in s.queue[1..]
    ensures s.reserved >= 0
  {
    assert At(s);
    QueueRising(s.grants, s.queue, s.next);
    if s.queue != [] {
      assert s.queue[0] in s.queue;
      TailOf(s.queue);
    }
  }

  lemma QuietKeeps(ok: State -> bool, limits: Limits, s: State, step: Step)
    requires IsInv(ok, limits) && ok(s) && Allowed(s, step, limits)
    requires step.Touch? || step.Tick? || step.Cancel? || step.Abandon? || step.Forget?
    ensures Quiet(s, Next(s, step, limits)) && ok(Next(s, step, limits))
  {
    assert At(s);
    Keeps(ok, limits, s, step);
    match step
    case Touch(t) => QuietTouched(s, limits, t);
    case Tick(later) => QuietTicked(s, later);
    case Cancel(w) => QuietCancelling(s, w);
    case Forget(w) => QuietCancelling(s, w);
    case Abandon(w) => QuietAbandoned(s, limits, w);
  }

  ghost predicate Pair(a: State, b: State) {
    true
  }

  ghost predicate IsServed(served: (State, State) -> bool) {
    forall a, b {:trigger Pair(a, b)} :: Pair(a, b) ==> (served(a, b) <==> Served(a, b))
  }

  lemma ServedChain(served: (State, State) -> bool, a: State, b: State, c: State)
    requires IsServed(served) && served(a, b) && served(b, c)
    ensures served(a, c)
  {
    assert Pair(a, b) && Pair(b, c) && Pair(a, c);
    ServedTransitive(a, b, c);
  }

  lemma ServedSelf(served: (State, State) -> bool, a: State)
    requires IsServed(served)
    ensures served(a, a)
  {
    assert Pair(a, a);
  }

  lemma ServedGrant(served: (State, State) -> bool, s: State)
    requires IsServed(served) && s.queue != [] && s.queue[0] in s.waiting
    ensures served(s, Granting(s))
  {
    assert Pair(s, Granting(s));
    GrantingServes(s);
  }

  lemma ServedAnnounced(served: (State, State) -> bool, s: State)
    requires IsServed(served)
    ensures served(s, Announced(s)) && served(s, Leaking(s))
  {
    assert Pair(s, Announced(s)) && Pair(s, Leaking(s));
  }

  lemma ServedPop(served: (State, State) -> bool, s: State, t: string, b: State)
    requires IsServed(served) && t in s.slot && s.slot[t].holders == {} && Quiet(Popped(s, t, Evicted), b)
    ensures served(s, b)
    ensures |b.slot| == |s.slot| - 1
  {
    assert Pair(s, b);
    var p := Popped(s, t, Evicted);
    PoppedServes(s, t);
    QuietServes(p, b);
    ServedTransitive(s, p, b);
    SizeWithout(s.slot, t);
    assert |b.slot| == |b.slot.Keys| && |p.slot| == |p.slot.Keys|;
  }

  /** By the events nobody has used a listed container since its time of last use. */
  lemma StaleUntouched(ok: State -> bool, limits: Limits, s: State, stale: set<string>, limit: int)
    requires IsInv(ok, limits) && ok(s) && forall t :: t in stale ==> t in s.slot && s.slot[t].lastUsed <= limit
    ensures forall t :: t in stale ==> Untouched(s.log, s.slot[t].container, limit)
  {
    assert At(s);
    forall t | t in stale ensures Untouched(s.log, s.slot[t].container, limit) {
      assert SlotAgrees(s.slot[t], s.log);
      UntouchedLater(s.log, s.slot[t].container, s.slot[t].lastUsed, limit);
    }
  }

  /** What serving keeps, unfolded. */
  lemma ServedMeans(served: (State, State) -> bool, a: State, b: State)
    requires IsServed(served) && served(a, b)
    ensures Served(a, b)
  {
    assert Pair(a, b);
  }

  /** With acquires alone on their threads, no start takes a slot already taken. */
  lemma StartIsFree(ok: State -> bool, limits: Limits, s: State)
    requires IsInv(ok, limits) && ok(s) && s.serial
    ensures s.starting.Some? ==> s.starting.value !in s.slot
  {
    assert At(s);
  }
}
