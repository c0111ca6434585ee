/**
 * The sandbox pool (src/app/sandbox/pool.py, SandboxPool). Every method below that is not marked lock-free runs under
 * the pool's lock; at each of its awaits Interfere lets any number of lock-free steps run. Stopping a container and
 * asking whether it is alive are taken not to raise; starting one may fail, and the caller of an acquire may be
 * cancelled at any of its awaits.
 */
module SandboxPool {
  import opened Common
  import opened Names
  import opened PoolState

  /** What an acquire comes to in its first stretch under the lock. */
  datatype Entered = Got(container: nat) | Queued(ticket: nat) | Failed

  /** The await of an acquire at which its caller is cancelled, if it is. */
  datatype Cut = Never | AtProbe | AtDiscard | AtEviction | AtStart

  /** Idle, and least recently used: ties go to the smaller name. */
  ghost predicate Lru(slot: Slots, v: string) {
    && v in slot && slot[v].holders == {}
    && forall t :: t in slot && slot[t].holders == {} ==> Before(slot, v, t)
  }

  ghost predicate Before(slot: Slots, v: string, t: string)
    requires v in slot && t in slot
  {
    slot[v].lastUsed < slot[t].lastUsed || (slot[v].lastUsed == slot[t].lastUsed && (v == t || Lt(v, t)))
  }

  /** Who makes room: nobody while there is room; else the least recently used idle slot, if any slot is idle. */
  ghost predicate Displaces(slot: Slots, gone: set<string>, room: bool) {
    if room || AllHeld(slot) then gone == {} else exists v :: Lru(slot, v) && gone == {v}
  }

  /** The slots after an acquire of a thread that had none. */
  ghost predicate Rearranged(a: Slots, b: Slots, t: string, got: bool, gone: set<string>, room: bool) {
    b.Keys == a.Keys - gone + (if got then {t} else {}) && Displaces(a, gone, room)
  }

  ghost predicate AllHeld(slot: Slots) {
    forall t :: t in slot ==> slot[t].holders != {}
  }

  lemma Compared(slot: Slots, v: string, t: string)
    requires v in slot && t in slot
    ensures Before(slot, v, t) || Before(slot, t, v)
  {
    LtTotal(v, t);
  }

  lemma BeforeTransitive(slot: Slots, a: string, b: string, c: string)
    requires a in slot && b in slot && c in slot && Before(slot, a, b) && Before(slot, b, c)
    ensures Before(slot, a, c)
  {
    if Lt(a, b) && Lt(b, c) {
      LtTransitive(a, b, c);
    }
  }

  /** The threads found running, but for the rest, whose workspace is not gone. */
  function Usable(found: map<string, bool>, rest: set<string>): set<string> {
    set t | t in found && t !in rest && !found[t]
  }

  lemma UsableStep(found: map<string, bool>, rest: set<string>, t: string, keys: set<string>)
    requires t in rest && t in found
    ensures keys + Usable(found, rest - {t}) == keys + Usable(found, rest) + if found[t] then {} else {t}
  {}

  /** What came of one round of serving the queue. */
  datatype Service = Full | Given | Broken

  lemma NoTickets(queue: seq<nat>)
    ensures queue == [] || exists w :: w in queue
  {
    if queue != [] {
      assert queue[0] in queue;
    }
  }

  lemma HeadLeaves(queue: seq<nat>)
    requires queue != [] ==> queue[0] !in queue[1..]
    ensures queue != [] ==> Set(queue[1..]) == Set(queue) - {queue[0]} && queue[0] in Set(queue)
  {}

  /** After the lease check: untouched, or cleared because it was held and old; what is still held is recent. */
  ghost predicate LeaseChecked(a: Slot, b: Slot, deadline: int) {
    && (b == a || (a.holders != {} && a.lastUsed <= deadline && b == a.(holders := {})))
    && (b.holders != {} ==> b.lastUsed > deadline)
  }

  /** To be stopped by a sweep: unused since the idle deadline, and free or unused since the lease deadline. */
  predicate Overdue(one: Slot, lease: int, idle: int) {
    one.lastUsed <= idle && (one.holders == {} || one.lastUsed <= lease)
  }

  /** What is not stopped stays, with its holders unless its lease has run out. */
  ghost predicate Spared(a: Slot, b: Slot, lease: int) {
    && a.container == b.container && a.lastUsed <= b.lastUsed
    && b.holders == if a.lastUsed <= lease then {} else a.holders
  }

  ghost predicate Younger(slot: Slots, limit: int) {
    forall t :: t in slot ==> slot[t].lastUsed > limit
  }

  lemma StaleAreOverdue(a: Slots, b: Slots, stale: set<string>, lease: int, idle: int)
    requires a.Keys == b.Keys && forall t :: t in b ==> LeaseChecked(a[t], b[t], lease)
    requires stale == set t | t in b && b[t].holders == {} && b[t].lastUsed <= idle
    ensures a.Keys - stale == set t | t in a && !Overdue(a[t], lease, idle)
  {
    forall t | t in a ensures t in stale <==> Overdue(a[t], lease, idle) {
      assert t in b && LeaseChecked(a[t], b[t], lease);
    }
  }

  lemma AgedAreSpared(a: Slots, b: Slots, c: Slots, lease: int)
    requires a.Keys == b.Keys && c.Keys <= b.Keys && forall t :: t in b ==> LeaseChecked(a[t], b[t], lease)
    requires forall t :: t in c ==> Aged(b[t], c[t])
    ensures forall t :: t in c ==> Spared(a[t], c[t], lease)
  {
    forall t | t in c ensures Spared(a[t], c[t], lease) {
      assert t in b && LeaseChecked(a[t], b[t], lease) && Aged(b[t], c[t]);
    }
  }

  lemma SparedYounger(a: Slots, b: Slots, scan: int, judged: int, idle: int, lease: int)
    requires scan <= judged && b.Keys == set t | t in a && !Overdue(a[t], scan - lease, judged - idle)
    requires forall t :: t in b ==> Spared(a[t], b[t], scan - lease)
    ensures Younger(b, scan - Max(idle, lease))
  {
    forall t | t in b ensures b[t].lastUsed > scan - Max(idle, lease) {
      assert t in b.Keys && Spared(a[t], b[t], scan - lease);
    }
  }

  class SandboxPool {
    const maxContainer: nat
    const idleTimeout: int
    const leaseTimeout: int

    var slot: Slots
    var queue: seq<nat>
    var reserved: int
    /** The acquires suspended on a future or on their way back to the lock. */
    var waiting: Waiters
    var next: nat
    var made: nat
    var now: int

    ghost var starting: Option<string>
    ghost var log: seq<Event>
    ghost var grants: seq<nat>
    ghost var told: seq<Call>
    ghost var running: set<nat>
    ghost var serial: bool
    ghost var cap: nat

    ghost const limits: Limits
    /** The invariant and the serving relation, kept folded. */
    ghost const ok: State -> bool
    ghost const served: (State, State) -> bool

    ghost function View(): State
      reads this
    {
      State(slot, queue, reserved, waiting, next, made, now, starting, log, grants, told, running, serial, cap)
    }

    ghost predicate Valid()
      reads this
    {
      && limits == Limits(idleTimeout, leaseTimeout)
      && maxContainer <= cap && IsInv(ok, limits) && IsServed(served) && ok(View())
    }

    constructor (maxContainer: nat, idleTimeout: int, leaseTimeout: int)
      ensures Valid() && View() == NewPool(maxContainer) && this.maxContainer == maxContainer
    {
      this.maxContainer, this.idleTimeout, this.leaseTimeout := maxContainer, idleTimeout, leaseTimeout;
      slot, queue, reserved, waiting, next, made, now := map[], [], 0, map[], 0, 0, 0;
      starting, log, grants, told, running, serial, cap := None, [], [], [], {}, true, maxContainer;
      ghost var both := Limits(idleTimeout, leaseTimeout);
      limits := both;
      ok := (s: State) => Inv(s, both);
      served := (a: State, b: State) => Served(a, b);
      NewPoolKeeps(maxContainer, both);
    }

    // ---- Lock-free ----

    /** current. */
    method Current(t: string) returns (c: Option<nat>)
      requires Valid()
      modifies this
      ensures Valid() && View() == Touched(old(View()), t) && Quiet(old(View()), View())
      ensures c == if t in slot then Some(slot[t].container) else None
    {
      QuietKeeps(ok, limits, View(), Touch(t));
      if t !in slot {
        return None;
      }
      log := log + [Used(slot[t].container, now)];
      slot := slot[t := slot[t].(lastUsed := now)];
      return Some(slot[t].container);
    }

    /** The timeout of wait_for, or a cancelled caller, cancels the future; the waiter itself runs later. */
    method CancelFuture(w: nat)
      requires Valid() && w in waiting && waiting[w].future.Pending?
      modifies this
      ensures Valid() && View() == Cancelling(old(View()), w) && Quiet(old(View()), View())
    {
      QuietKeeps(ok, limits, View(), Cancel(w));
      waiting := waiting[w := waiting[w].(future := Cancelled)];
    }

    /** _announce: call back every queued waiter with its position. */
    method AnnounceAll()
      modifies this
      ensures View() == Announced(old(View()))
    {
      ghost var before, calls := told, Calls(queue);
      assert calls[..0] == [] && told + [] == told;
      var k := 0;
      while k < |queue|
        invariant queue == old(queue) && 0 <= k <= |queue|
        invariant View() == old(View()).(told := before + calls[..k])
      {
        assert calls[..k + 1] == calls[..k] + [calls[k]];
        told := told + [Call(queue[k], k + 1)];
        k := k + 1;
      }
      assert calls[..k] == calls;
    }

    /** _abandon. */
    method AbandonWait(w: nat)
      requires Valid() && w in waiting && !waiting[w].future.Pending?
      modifies this
      ensures Valid() && View() == Abandoned(old(View()), w) && Quiet(old(View()), View())
    {
      QuietKeeps(ok, limits, View(), Abandon(w));
      if waiting[w].future.Granted? {
        reserved := reserved - 1;
      } else {
        queue := Without(queue, w);
      }
      waiting := waiting - {w};
      AnnounceAll();
    }

    /** A granted waiter cancelled while queueing for the lock again. */
    method CancelAtLock(w: nat)
      requires Valid() && w in waiting && waiting[w].future.Granted?
      modifies this
      ensures Valid() && View() == Forgotten(old(View()), w) && Quiet(old(View()), View())
    {
      QuietKeeps(ok, limits, View(), Forget(w));
      waiting := waiting - {w};
    }

    /** Time passes. */
    method Pass(later: nat)
      requires Valid()
      modifies this
      ensures Valid() && View() == old(View()).(now := old(now) + later) && Quiet(old(View()), View())
    {
      QuietKeeps(ok, limits, View(), Tick(later));
      now := now + later;
    }

    /** One lock-free step, whichever. */
    method AnyStep()
      requires Valid()
      modifies this
      ensures Valid() && Quiet(old(View()), View())
    {
      var t: string := *;
      var w: nat := *;
      var later: nat := *;
      var atLock: bool := *;
      if w !in waiting {
        if later == 0 {
          var _ := Current(t);
        } else {
          Pass(later);
        }
      } else if waiting[w].future.Pending? {
        CancelFuture(w);
      } else if waiting[w].future.Granted? && atLock {
        CancelAtLock(w);
      } else {
        AbandonWait(w);
      }
    }

    /** An await: any number of lock-free steps. */
    method Interfere()
      requires Valid()
      modifies this
      ensures Valid() && Quiet(old(View()), View())
    {
      var n: nat := *;
      while n > 0
        invariant Valid() && Quiet(old(View()), View())
      {
        ghost var before := View();
        AnyStep();
        QuietTransitive(old(View()), before, View());
        n := n - 1;
      }
    }

    // ---- Making room ----

    function HasRoom(): bool
      reads this
    {
      |slot| + reserved < maxContainer
    }

    /** The minimum of the idle slots by time of last use, then name. */
    method FindIdle() returns (victim: Option<string>)
      ensures victim.None? ==> AllHeld(slot)
      ensures victim.Some? ==> Lru(slot, victim.value)
    {
      victim := None;
      var rest := slot.Keys;
      while rest != {}
        invariant rest <= slot.Keys
        invariant victim.None? ==> forall t :: t in slot && t !in rest ==> slot[t].holders != {}
        invariant victim.Some? ==> victim.value in slot && slot[victim.value].holders == {}
        invariant victim.Some? ==>
                    forall t :: t in slot && t !in rest && slot[t].holders == {} ==> Before(slot, victim.value, t)
        decreases |rest|
      {
        var t :| t in rest;
        if slot[t].holders == {} {
          if victim.None? {
            victim := Some(t);
          } else {
            Compared(slot, victim.value, t);
            if slot[t].lastUsed < slot[victim.value].lastUsed
               || (slot[t].lastUsed == slot[victim.value].lastUsed && Lt(t, victim.value)) {
              ghost var v := victim.value;
              victim := Some(t);
              forall u | u in slot && u !in rest && slot[u].holders == {} ensures Before(slot, t, u) {
                BeforeTransitive(slot, t, v, u);
              }
            }
          }
        }
        rest := rest - {t};
      }
    }

    /** _discard: the slot leaves the books, then its container is stopped. */
    method Drop(t: string, ghost why: Why)
      requires Valid() && t in slot && (why.Evicted? || why.Idle? ==> slot[t].holders == {})
      requires IdleThen(why, log, slot[t].container, limits) && (why.Idle? ==> why.judged <= now)
      modifies this
      ensures Valid() && Quiet(Popped(old(View()), t, why), View())
    {
      Keeps(ok, limits, View(), Pop(t, why));
      log, running := log + [Stopped(slot[t].container, why)], running - {slot[t].container};
      slot := slot - {t};
      Interfere();
    }

    /** _evict_idle: the least recently used idle container, if there is one. */
    method EvictIdle() returns (done: bool, ghost victim: string)
      requires Valid()
      modifies this
      ensures Valid() && served(old(View()), View())
      ensures !done ==> View() == old(View()) && AllHeld(slot)
      ensures done ==> Lru(old(slot), victim) && Quiet(Popped(old(View()), victim, Evicted), View())
      ensures done ==> |slot| == |old(slot)| - 1 && reserved <= old(reserved)
    {
      victim := "";
      var found := FindIdle();
      if found.None? {
        ServedSelf(served, View());
        return false, victim;
      }
      victim := found.value;
      Drop(found.value, Evicted);
      ServedPop(served, old(View()), victim, View());
      return true, victim;
    }

    // ---- Serving the queue ----

    /** Count a place, then hand it to the head of the queue. */
    method GrantNext() returns (given: bool)
      requires Valid() && Room(View())
      modifies this
      ensures Valid() && served(old(View()), View())
      ensures old(queue) == [] ==> !given && View() == Leaking(old(View()))
      ensures old(queue) != [] ==> old(queue)[0] in old(waiting) && View() == Granting(old(View()))
      ensures given <==> old(queue) != [] && old(waiting)[old(queue)[0]].future.Pending?
    {
      Basics(ok, limits, View());
      if queue == [] {
        ServedAnnounced(served, View());
        CountForNobody();
        return false;
      }
      ServedGrant(served, View());
      given := GrantHead();
    }

    method CountForNobody()
      requires Valid() && Room(View())
      modifies this
      ensures Valid() && View() == Leaking(old(View()))
    {
      Keeps(ok, limits, View(), Leak);
      reserved := reserved + 1;
    }

    method GrantHead() returns (given: bool)
      requires Valid() && Room(View()) && queue != [] && queue[0] in waiting
      modifies this
      ensures Valid() && View() == Granting(old(View()))
      ensures given <==> old(waiting)[old(queue)[0]].future.Pending?
    {
      Keeps(ok, limits, View(), Grant);
      var w := queue[0];
      reserved, queue := reserved + 1, queue[1..];
      given := waiting[w].future.Pending?;
      if given {
        grants := grants + [w];
        waiting := waiting[w := waiting[w].(future := Granted)];
      }
    }

    /** Make room if needed and serve the head of the queue. */
    method ServeOne() returns (r: Service, ghost lost: nat)
      requires Valid() && starting.None? && queue != []
      modifies this
      ensures Valid() && starting.None? && served(old(View()), View())
      ensures Set(queue) <= Set(old(queue))
      ensures |old(slot)| + old(reserved) < maxContainer ==>
                slot == old(slot) && reserved + |queue| == old(reserved) + |old(queue)|
      ensures r == Full ==> View() == old(View()) && maxContainer <= |slot| + reserved && AllHeld(slot)
      ensures r == Given ==> Set(queue) < Set(old(queue)) && |grants| == |old(grants)| + 1
      ensures r == Broken ==> lost in old(queue) && lost !in queue && lost !in grants
    {
      lost := queue[0];
      Basics(ok, limits, View());
      assert lost in queue;
      ServedSelf(served, View());
      if !HasRoom() {
        var made, _ := EvictIdle();
        if !made {
          return Full, lost;
        }
      }
      ghost var before := View();
      Basics(ok, limits, View());
      HeadLeaves(queue);
      var given := GrantNext();
      ServedChain(served, old(View()), before, View());
      if before.queue != [] {
        lost := before.queue[0];
        assert lost in before.queue;
      }
      return if given then Given else Broken, lost;
    }

    /**
     * _pump. It ends normally with the queue empty, or with no room and every container held; it breaks off only when
     * a waiter gave up, leaving a place counted that nobody will take.
     */
    method Pump() returns (done: bool)
      requires Valid() && starting.None?
      modifies this
      ensures Valid() && starting.None? && served(old(View()), View())
      ensures done ==> queue == [] || (maxContainer <= |slot| + reserved && AllHeld(slot))
      ensures old(queue) == [] ==> done && View() == Announced(old(View()))
      ensures |old(slot)| + old(reserved) + |old(queue)| <= maxContainer ==> slot == old(slot)
      ensures !done ==> exists w :: w in old(queue) && w !in queue && w !in grants
    {
      ServedSelf(served, View());
      while queue != []
        invariant Valid() && starting.None? && served(old(View()), View())
        invariant Set(queue) <= Set(old(queue)) && (old(queue) == [] ==> View() == old(View()))
        invariant |old(slot)| + old(reserved) + |old(queue)| <= maxContainer ==>
                    slot == old(slot) && reserved + |queue| == old(reserved) + |old(queue)|
        decreases Set(queue)
      {
        ghost var before := View();
        var r, lost := ServeOne();
        ServedChain(served, old(View()), before, View());
        if r == Full {
          break;
        } else if r == Broken {
          assert lost in Set(before.queue);
          return false;
        }
      }
      ghost var before := View();
      Keeps(ok, limits, before, Announce);
      ServedAnnounced(served, before);
      AnnounceAll();
      ServedChain(served, old(View()), before, View());
      return true;
    }

    // ---- Acquire ----

    /** Either t has its container, held by h, or it is last in the queue, with no room and every container held. */
    ghost predicate Placed(r: Entered, t: string, h: string)
      reads this
    {
      && (r.Got? ==> t in slot && slot[t].container == r.container && h in slot[t].holders)
      && (r.Queued? ==>
            && t !in slot && queue != [] && queue[|queue| - 1] == r.ticket
            && r.ticket in waiting && waiting[r.ticket] == Waiter(t, Pending)
            && maxContainer <= |slot| + reserved && AllHeld(slot))
    }

    /**
     * The await of _start. If the container comes `up` it is entered in the books, unless the caller is cancelled
     * there: then it comes up in no slot.
     */
    method FinishStart(t: string, h: string, up: bool, cut: Cut) returns (r: Entered, ghost mid: State)
      requires Valid() && starting == Some(t)
      modifies this
      ensures Valid() && Quiet(old(View()), mid) && Stay(old(slot), slot, t)
      ensures View() == if !up then StartFailed(mid) else if cut.AtStart? then Torn(mid) else Put(mid, t, h)
      ensures r == if up && !cut.AtStart? then Got(old(made)) else Failed
      ensures serial ==> t !in mid.slot
      ensures slot.Keys == old(slot).Keys + if r.Got? then {t} else {}
    {
      Interfere();
      mid := View();
      StayPut(old(View()), mid, t, h);
      if serial {
        StartIsFree(ok, limits, mid);
      }
      if !up {
        r := StartDown();
      } else if cut.AtStart? {
        r := StartTorn();
      } else {
        Keeps(ok, limits, View(), Finish(h));
        r := EnterBooks(t, h);
      }
    }

    method StartDown() returns (r: Entered)
      requires Valid()
      modifies this
      ensures Valid() && View() == StartFailed(old(View())) && r == Failed
    {
      Keeps(ok, limits, View(), Fail);
      starting := None;
      return Failed;
    }

    method StartTorn() returns (r: Entered)
      requires Valid() && starting.Some?
      modifies this
      ensures Valid() && View() == Torn(old(View())) && r == Failed
    {
      Keeps(ok, limits, View(), Tear);
      starting, running := None, running + {made};
      made := made + 1;
      return Failed;
    }

    method EnterBooks(t: string, h: string) returns (r: Entered)
      modifies this
      ensures View() == Put(old(View()), t, h) && r == Got(old(made))
    {
      ghost var after := Put(View(), t, h);
      r := Got(made);
      slot, made := slot[t := Slot(made, {h}, now)], made + 1;
      log, running, starting := after.log, after.running, None;
    }

    /** A holder joins a running container. Joining twice is joining once. */
    method JoinLease(t: string, h: string)
      requires Valid() && t in slot
      modifies this
      ensures Valid() && View() == Joined(old(View()), t, h)
    {
      Keeps(ok, limits, View(), Join(t, h));
      log := log + [Leased(slot[t].container, h, now)];
      slot := slot[t := slot[t].(holders := slot[t].holders + {h}, lastUsed := now)];
    }

    /** Ask whether the thread's container is alive: join it, or take the dead one off the books. */
    method Reuse(t: string, h: string, alive: bool, cut: Cut) returns (found: bool)
      requires Valid() && t in slot
      modifies this
      ensures Valid() && starting == old(starting) && cap == old(cap) && serial == old(serial)
      ensures SameWaiters(old(waiting), waiting) && Stay(old(slot), slot, t)
      ensures found <==> alive && !cut.AtProbe?
      ensures found ==> t in slot && slot[t].container == old(slot)[t].container && h in slot[t].holders
      ensures !found ==> (t !in slot <==> !cut.AtProbe?)
    {
      Interfere();
      ghost var asked := View();
      StayPut(old(View()), asked, t, h);
      found := alive && !cut.AtProbe?;
      if found {
        JoinLease(t, h);
      } else if !cut.AtProbe? {
        Drop(t, Dead);
        StayPopped(asked, View(), t, Dead);
      }
      StayTransitive(old(slot), asked.slot, slot, t);
    }

    /** The first stretch of acquire: reuse, start, or queue up. A thread without a slot evicts as Displaces says. */
    method Acquire(t: string, h: string, alive: bool, up: bool, cut: Cut) returns (r: Entered, ghost gone: set<string>)
      requires Valid() && starting.None?
      modifies this
      ensures Valid() && starting.None?
      ensures Placed(r, t, h) && (r.Failed? ==> !up || !cut.Never?)
      ensures cap == old(cap) && Stay(old(slot), slot, t)
      ensures t in old(slot) && alive && !cut.AtProbe? ==> r == Got(old(slot)[t].container)
      ensures t !in old(slot) ==>
                Rearranged(old(slot), slot, t, r.Got?, gone, |old(slot)| + old(reserved) < maxContainer)
    {
      gone := {};
      NoteEntry(t);
      if t in slot {
        r := Reenter(t, h, alive, up, cut);
      } else {
        r, gone := StartOrQueue(t, h, up, cut);
      }
    }

    ghost method NoteEntry(t: string)
      requires Valid()
      modifies this
      ensures Valid() && View() == Entering(old(View()), t)
    {
      Keeps(ok, limits, View(), Enter(t));
      serial := serial && forall w :: w in waiting ==> waiting[w].thread != t;
    }

    /** t has a slot: join its container if that is alive, else take it off the books and go on without. */
    method Reenter(t: string, h: string, alive: bool, up: bool, cut: Cut) returns (r: Entered)
      requires Valid() && starting.None? && t in slot
      requires serial ==> forall w :: w in waiting ==> waiting[w].thread != t
      modifies this
      ensures Valid() && starting.None? && cap == old(cap) && Stay(old(slot), slot, t)
      ensures Placed(r, t, h) && (r.Failed? ==> !up || !cut.Never?)
      ensures alive && !cut.AtProbe? ==> r == Got(old(slot)[t].container)
    {
      var found := Reuse(t, h, alive, cut);
      if found {
        return Got(slot[t].container);
      }
      if cut.AtProbe? || cut.AtDiscard? {
        return Failed;
      }
      ghost var mid, gone := slot, {};
      r, gone := StartOrQueue(t, h, up, cut);
      StayTransitive(old(slot), mid, slot, t);
    }

    /** No container for t yet: start one where there is room or room can be made, else wait. */
    method StartOrQueue(t: string, h: string, up: bool, cut: Cut) returns (r: Entered, ghost gone: set<string>)
      requires Valid() && starting.None? && Unclaimed(View(), t) && t !in slot
      modifies this
      ensures Stay(old(slot), slot, t)
      ensures Valid() && starting.None? && cap == old(cap)
      ensures Placed(r, t, h) && (r.Failed? ==> !up || !cut.Never?)
      ensures Rearranged(old(slot), slot, t, r.Got?, gone, |old(slot)| + old(reserved) < maxContainer)
    {
      var full := !HasRoom();
      var room;
      room, gone := MakeRoom(t);
      ghost var mid := slot;
      if !room {
        r := QueueUp(t);
        return;
      }
      if full && cut.AtEviction? {
        return Failed, gone;
      }
      r := StartNew(t, h, up, cut);
      StayTransitive(old(slot), mid, slot, t);
    }

    method MakeRoom(t: string) returns (room: bool, ghost gone: set<string>)
      requires Valid() && starting.None? && Unclaimed(View(), t) && t !in slot
      modifies this
      ensures Valid() && starting.None? && Unclaimed(View(), t) && t !in slot && cap == old(cap)
      ensures if room then Room(View()) else maxContainer <= |slot| + reserved && AllHeld(slot)
      ensures Stay(old(slot), slot, t)
      ensures Rearranged(old(slot), slot, t, false, gone, |old(slot)| + old(reserved) < maxContainer)
    {
      room, gone := HasRoom(), {};
      if room {
        Basics(ok, limits, View());
      } else {
        room, gone := EvictFor(t);
      }
    }

    method EvictFor(t: string) returns (room: bool, ghost gone: set<string>)
      requires Valid() && starting.None? && Unclaimed(View(), t) && t !in slot && !HasRoom()
      modifies this
      ensures Valid() && starting.None? && Unclaimed(View(), t) && t !in slot && cap == old(cap)
      ensures if room then Room(View()) else maxContainer <= |slot| + reserved && AllHeld(slot)
      ensures Stay(old(slot), slot, t) && Rearranged(old(slot), slot, t, false, gone, false)
    {
      Basics(ok, limits, View());
      ghost var victim;
      room, victim := EvictIdle();
      gone := if room then {victim} else {};
      ServedMeans(served, old(View()), View());
      StayServed(old(View()), View(), t);
    }

    method StartNew(t: string, h: string, up: bool, cut: Cut) returns (r: Entered)
      requires Valid() && starting.None? && Room(View()) && Unclaimed(View(), t)
      modifies this
      ensures Stay(old(slot), slot, t)
      ensures Valid() && starting.None? && cap == old(cap) && !r.Queued? && (r.Got? <==> up && !cut.AtStart?)
      ensures slot.Keys == old(slot).Keys + if r.Got? then {t} else {}
      ensures r.Got? ==> t in slot && slot[t].container == r.container && h in slot[t].holders
    {
      Keeps(ok, limits, View(), Start(t));
      starting := Some(t);
      ghost var mid;
      r, mid := FinishStart(t, h, up, cut);
    }

    method QueueUp(t: string) returns (r: Entered)
      requires Valid() && Unclaimed(View(), t)
      modifies this
      ensures Valid() && View() == Announced(Enqueued(old(View()), t)) && r == Queued(old(next))
    {
      Keeps(ok, limits, View(), Enqueue(t));
      Keeps(ok, limits, Enqueued(View(), t), Announce);
      queue, waiting := queue + [next], waiting[next := Waiter(t, Pending)];
      next := next + 1;
      AnnounceAll();
      return Queued(next - 1);
    }

    /** The second stretch of acquire: a granted waiter is back under the lock. */
    method ResumeAcquire(w: nat, h: string, up: bool, cut: Cut) returns (r: Entered)
      requires Valid() && starting.None? && w in waiting && waiting[w].future.Granted?
      modifies this
      ensures Valid() && starting.None? && cap == old(cap) && w !in waiting
      ensures Stay(old(slot), slot, old(waiting)[w].thread)
      ensures r.Got? ==> var t := old(waiting)[w].thread;
                t in slot && slot[t] == Slot(r.container, {h}, now) && (old(serial) ==> t !in old(slot))
      ensures if up && !cut.AtStart? then r.Got? else r == Failed
      ensures up && cut.AtStart? ==> slot.Keys == old(slot).Keys && running == old(running) + {old(made)}
    {
      Keeps(ok, limits, View(), Resume(w));
      var t := waiting[w].thread;
      reserved, starting := reserved - 1, Some(t);
      waiting := waiting - {w};
      ghost var mid;
      r, mid := FinishStart(t, h, up, cut);
    }

    // ---- Release, discard, sweep ----

    /** release: one holder leaves; what that frees goes to the queue. */
    method Release(t: string, h: string) returns (done: bool)
      requires Valid() && starting.None?
      modifies this
      ensures Valid() && starting.None?
      ensures Served(if t in old(slot) then Left(old(View()), t, h) else old(View()), View())
      ensures done ==> queue == [] || (maxContainer <= |slot| + reserved && AllHeld(slot))
    {
      if t in slot {
        Keeps(ok, limits, View(), Leave(t, h));
        log := log + [Released(slot[t].container, h, now)];
        slot := slot[t := slot[t].(holders := slot[t].holders - {h}, lastUsed := now)];
      }
      ghost var mid := View();
      done := Pump();
      ServedMeans(served, mid, View());
    }

    /** discard: the thread is gone, whoever holds its container. */
    method Discard(t: string) returns (done: bool, ghost mid: State)
      requires Valid() && starting.None?
      modifies this
      ensures Valid() && starting.None? && t !in slot
      ensures Stay(old(slot), slot, t)
      ensures Served(mid, View()) && if t in old(slot) then Quiet(Popped(old(View()), t, Discarded), mid)
                                     else mid == old(View())
      ensures done ==> queue == [] || (maxContainer <= |slot| + reserved && AllHeld(slot))
    {
      if t in slot {
        Drop(t, Discarded);
        StayPopped(old(View()), View(), t, Discarded);
      }
      mid := View();
      done := Pump();
      ServedMeans(served, mid, View());
      StayServed(mid, View(), t);
      StayTransitive(old(slot), mid.slot, slot, t);
    }

    /** _expire_lease: clear the holders of containers nobody has touched for the lease timeout. */
    method ExpireLeases()
      requires Valid()
      modifies this
      ensures Valid() && starting == old(starting) && now == old(now) && slot.Keys == old(slot).Keys
      ensures queue == old(queue)
      ensures forall t :: t in slot ==> LeaseChecked(old(slot)[t], slot[t], now - leaseTimeout)
    {
      var rest := slot.Keys;
      while rest != {}
        invariant Valid() && starting == old(starting) && now == old(now)
        invariant slot.Keys == old(slot).Keys && rest <= slot.Keys && queue == old(queue)
        invariant forall t :: t in slot && t in rest ==> slot[t] == old(slot)[t]
        invariant forall t :: t in slot && t !in rest ==> LeaseChecked(old(slot)[t], slot[t], now - leaseTimeout)
        decreases |rest|
      {
        var t :| t in rest;
        if slot[t].holders != {} && slot[t].lastUsed <= now - leaseTimeout {
          ExpireLease(t);
        }
        rest := rest - {t};
      }
    }

    method ExpireLease(t: string)
      requires Valid() && t in slot && slot[t].lastUsed <= now - leaseTimeout
      modifies this
      ensures Valid() && View() == LeaseExpired(old(View()), t)
    {
      Keeps(ok, limits, View(), Expire(t));
      log := log + [Expired(slot[t].container, now)];
      slot := slot[t := slot[t].(holders := {})];
    }

    /** Stop the containers found idle for too long. One touched meanwhile is stopped all the same. */
    method StopIdle(stale: set<string>, ghost judged: int)
      requires Valid() && starting.None? && stale <= slot.Keys && (forall t :: t in stale ==> slot[t].holders == {})
      requires judged <= now
      requires forall t :: t in stale ==> Untouched(log, slot[t].container, judged - idleTimeout)
      modifies this
      ensures Valid() && starting.None? && old(now) <= now && slot.Keys == old(slot).Keys - stale
      ensures forall t :: t in slot ==> Aged(old(slot)[t], slot[t])
      ensures old(queue) == [] ==> queue == []
    {
      ghost var why := Idle(|log|, judged);
      var rest := stale;
      while rest != {}
        invariant Valid() && starting.None? && old(now) <= now && rest <= stale
        invariant slot.Keys == old(slot).Keys - (stale - rest)
        invariant forall t :: t in slot ==> Aged(old(slot)[t], slot[t])
        invariant old(log) <= log && (old(queue) == [] ==> queue == [])
        decreases |rest|
      {
        var t :| t in rest;
        assert log[..|old(log)|] == old(log);
        DropIdle(t, why);
        rest := rest - {t};
      }
    }

    method DropIdle(t: string, ghost why: Why)
      requires Valid() && t in slot && slot[t].holders == {} && why.Idle? && why.judged <= now
      requires IdleThen(why, log, slot[t].container, limits)
      modifies this
      ensures Valid() && starting == old(starting) && old(now) <= now && slot.Keys == old(slot).Keys - {t}
      ensures forall u :: u in slot ==> Aged(old(slot)[u], slot[u])
      ensures old(log) <= log && (old(queue) == [] ==> queue == [])
    {
      Drop(t, why);
      NoTickets(queue);
    }

    /**
     * sweep. It stops exactly the containers unused since the idle deadline that nobody holds or whose lease has run
     * out, clears the leases that have run out, and serves the queue; only that may evict others. So afterwards no
     * container is older than the larger of the two timeouts, as of the scan.
     */
    method Sweep() returns (done: bool, ghost scan: int, ghost judged: int, ghost mid: State)
      requires Valid() && starting.None?
      modifies this
      ensures Valid() && starting.None? && old(now) == scan <= judged <= now
      ensures mid.slot.Keys ==
              set t | t in old(slot) && !Overdue(old(slot)[t], scan - leaseTimeout, judged - idleTimeout)
      ensures forall t :: t in mid.slot ==> Spared(old(slot)[t], mid.slot[t], scan - leaseTimeout)
      ensures Served(mid, View()) && (old(queue) == [] ==> slot == mid.slot)
      ensures Younger(slot, scan - Max(idleTimeout, leaseTimeout))
      ensures done ==> queue == [] || (maxContainer <= |slot| + reserved && AllHeld(slot))
    {
      scan, judged := StopOverdue();
      mid := View();
      SparedYounger(old(slot), slot, scan, judged, idleTimeout, leaseTimeout);
      done := Pump();
      ServedMeans(served, mid, View());
    }

    /** The two clock readings of a sweep, and what is stopped by them. */
    method StopOverdue() returns (ghost scan: int, ghost judged: int)
      requires Valid() && starting.None?
      modifies this
      ensures Valid() && starting.None? && old(now) == scan <= judged <= now
      ensures slot.Keys == set t | t in old(slot) && !Overdue(old(slot)[t], scan - leaseTimeout, judged - idleTimeout)
      ensures forall t :: t in slot ==> Spared(old(slot)[t], slot[t], scan - leaseTimeout)
      ensures old(queue) == [] ==> queue == []
    {
      scan := now;
      ExpireLeases();
      ghost var checked := slot;
      var later: nat := *;
      Pass(later);
      judged := now;
      var stale := set t | t in slot && slot[t].holders == {} && slot[t].lastUsed <= now - idleTimeout;
      StaleUntouched(ok, limits, View(), stale, judged - idleTimeout);
      StaleAreOverdue(old(slot), slot, stale, scan - leaseTimeout, judged - idleTimeout);
      StopIdle(stale, judged);
      AgedAreSpared(old(slot), checked, slot, scan - leaseTimeout);
    }

    // ---- Start-up and shutdown ----

    /** reclaim, before any acquire: adopt the containers found running, stop those whose workspace is gone. */
    method Reclaim(found: map<string, bool>)
      requires Valid() && starting.None? && waiting == map[] && reserved == 0
      modifies this
      ensures Valid() && starting.None? && waiting == map[] && reserved == 0
      ensures slot.Keys == old(slot).Keys + Usable(found, {})
      ensures cap <= Max(old(cap), |slot|)
    {
      var rest := found.Keys;
      assert Usable(found, rest) == {};
      while rest != {}
        invariant Valid() && starting.None? && waiting == map[] && reserved == 0
        invariant rest <= found.Keys && slot.Keys == old(slot).Keys + Usable(found, rest)
        invariant cap <= Max(old(cap), |slot|)
        decreases |rest|
      {
        var t :| t in rest;
        UsableStep(found, rest, t, old(slot).Keys);
        ReclaimOne(t, found[t]);
        rest := rest - {t};
      }
    }

    method ReclaimOne(t: string, gone: bool)
      requires Valid() && starting.None? && waiting == map[] && reserved == 0
      modifies this
      ensures Valid() && starting.None? && waiting == map[] && reserved == 0
      ensures |slot| >= |old(slot)| && cap <= Max(old(cap), |slot|)
      ensures slot.Keys == old(slot).Keys + if gone then {} else {t}
    {
      if t !in slot {
        if gone {
          assert |slot| == |slot.Keys|;
          Interfere();
          Basics(ok, limits, View());
          assert |slot| == |slot.Keys|;
        } else {
          SizeWith(slot, t, Slot(made, {}, now));
          Keeps(ok, limits, View(), Adopt(t));
          AdoptOne(t);
        }
      }
    }

    method AdoptOne(t: string)
      modifies this
      ensures View() == Adopted(old(View()), t)
    {
      ghost var after := Adopted(View(), t);
      slot, made := slot[t := Slot(made, {}, now)], made + 1;
      log, running, cap := after.log, after.running, after.cap;
    }

    /** aclose: send the waiters away, stop every container. */
    method Close()
      requires Valid() && starting.None?
      modifies this
      ensures Valid() && queue == [] && slot == map[]
      ensures forall t :: t in old(slot) ==> old(slot)[t].container !in running
    {
      while queue != []
        invariant Valid() && starting.None? && slot == old(slot)
        decreases |queue|
      {
        SendAway();
      }
      while slot.Keys != {}
        invariant Valid() && queue == []
        invariant forall t :: t in old(slot) ==>
                    if t in slot then slot[t].container == old(slot)[t].container
                    else old(slot)[t].container !in running
        decreases slot.Keys
      {
        var t :| t in slot.Keys;
        Drop(t, Shutdown);
        NoTickets(queue);
      }
    }

    method SendAway()
      requires Valid() && queue != []
      modifies this
      ensures Valid() && old(queue)[0] in old(waiting) && View() == Dismissed(old(View()))
    {
      Basics(ok, limits, View());
      Keeps(ok, limits, View(), Dismiss);
      var w := queue[0];
      queue, waiting := queue[1..], waiting[w := waiting[w].(future := Cancelled)];
    }
  }
}
