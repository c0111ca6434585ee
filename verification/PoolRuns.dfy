/** Two runs of the sandbox pool, from the empty pool, that leave a container running in no slot. */
module PoolRuns {
  import opened Common
  import opened PoolState

  /** Some run without a cancelled start ends in s. */
  ghost predicate Reachable(max: nat, limits: Limits, s: State) {
    exists states, steps :: RunTo(states, steps, max, limits, s)
  }

  ghost predicate RunTo(states: seq<State>, steps: seq<Step>, max: nat, limits: Limits, s: State) {
    IsRun(states, steps, max, limits) && states[|steps|] == s && forall j :: 0 <= j < |steps| ==> !steps[j].Tear?
  }

  lemma ReachStart(max: nat, limits: Limits)
    ensures Reachable(max, limits, NewPool(max))
  {
    assert RunTo([NewPool(max)], [], max, limits, NewPool(max));
  }

  lemma Reach(max: nat, limits: Limits, s: State, step: Step)
    requires Reachable(max, limits, s) && Allowed(s, step, limits) && !step.Tear?
    ensures Reachable(max, limits, Next(s, step, limits))
  {
    var states, steps :| RunTo(states, steps, max, limits, s);
    Extend(states, steps, max, limits, step);
    assert RunTo(states + [Next(s, step, limits)], steps + [step], max, limits, Next(s, step, limits));
  }

  lemma Extend(states: seq<State>, steps: seq<Step>, max: nat, limits: Limits, step: Step)
    requires IsRun(states, steps, max, limits) && Allowed(states[|steps|], step, limits)
    ensures IsRun(states + [Next(states[|steps|], step, limits)], steps + [step], max, limits)
  {
    var more, longer := states + [Next(states[|steps|], step, limits)], steps + [step];
    forall i | 0 <= i < |longer|
      ensures Allowed(more[i], longer[i], limits) && more[i + 1] == Next(more[i], longer[i], limits) {
      if i < |steps| {
        assert more[i] == states[i] && longer[i] == steps[i] && more[i + 1] == states[i + 1];
      }
    }
  }

  /** A client that disconnects while its container is starting leaves it running, though nobody else was there. */
  lemma CancelledStartLoses(limits: Limits, t: string)
    ensures var steps := [Enter(t), Start(t), Tear];
            exists states: seq<State> ::
              IsRun(states, steps, 1, limits) && states[3].serial && Unlisted(states[3]) == {0}
  {
    var s0 := NewPool(1);
    var s1 := Starting(s0, t);
    var s2 := Torn(s1);
    assert Entering(s0, t) == s0;
    TwoSteps(s0, s1, 1, limits, Enter(t), Start(t));
    Extend([s0, s0, s1], [Enter(t), Start(t)], 1, limits, Tear);
    assert [s0, s0, s1] + [s2] == [s0, s0, s1, s2];
    NoneListed(s2);
    assert IsRun([s0, s0, s1, s2], [Enter(t), Start(t), Tear], 1, limits);
  }

  lemma NoneListed(s: State)
    requires s.slot == map[]
    ensures Unlisted(s) == s.running
  {
    assert Containers(map[]) == {};
  }

  lemma TwoSteps(s: State, n: State, max: nat, limits: Limits, first: Step, second: Step)
    requires s == NewPool(max) && Allowed(s, first, limits) && Next(s, first, limits) == s
    requires Allowed(s, second, limits) && Next(s, second, limits) == n
    ensures IsRun([s, s, n], [first, second], max, limits)
  {
    Extend([s], [], max, limits, first);
    assert [s] + [s] == [s, s];
    Extend([s, s], [first], max, limits, second);
    assert [s, s] + [n] == [s, s, n];
  }

  /** An acquire that finds room. */
  lemma ReachHolding(max: nat, limits: Limits, s: State, t: string, h: string)
    requires Reachable(max, limits, s) && s.starting.None? && Room(s) && t !in s.slot && s.waiting == map[]
    ensures Reachable(max, limits, Put(Starting(s, t), t, h))
  {
    assert Entering(s, t) == s;
    Reach(max, limits, s, Enter(t));
    Reach(max, limits, s, Start(t));
    Reach(max, limits, Starting(s, t), Finish(h));
  }

  /** An acquire that has to wait. */
  lemma ReachWaiting(max: nat, limits: Limits, s: State, t: string)
    requires Reachable(max, limits, s) && s.starting.None? && t !in s.slot
    ensures Reachable(max, limits, Enqueued(Entering(s, t), t))
  {
    Reach(max, limits, s, Enter(t));
    Reach(max, limits, Entering(s, t), Enqueue(t));
  }

  /** A discarded container makes room for the head of the queue. */
  lemma ReachGranted(max: nat, limits: Limits, s: State, t: string)
    requires Reachable(max, limits, s) && t in s.slot && s.queue != [] && s.queue[0] in s.waiting
    requires Room(Popped(s, t, Discarded))
    ensures Reachable(max, limits, Granting(Popped(s, t, Discarded)))
  {
    Reach(max, limits, s, Pop(t, Discarded));
    Reach(max, limits, Popped(s, t, Discarded), Grant);
  }

  /** A granted waiter starts its container. */
  lemma ReachStarted(max: nat, limits: Limits, s: State, w: nat, h: string)
    requires Reachable(max, limits, s) && s.starting.None? && w in s.waiting && s.waiting[w].future.Granted?
    ensures Reachable(max, limits, Put(Resumed(s, w), s.waiting[w].thread, h))
  {
    Reach(max, limits, s, Resume(w));
    Reach(max, limits, Resumed(s, w), Finish(h));
  }

  /** Two containers held, and two acquires of one further thread queued. */
  function Crowded(x: string, y: string, b: string): State {
    State(map[x := Slot(0, {"h"}, 0), y := Slot(1, {"h"}, 0)], [0, 1], 0,
          map[0 := Waiter(b, Pending), 1 := Waiter(b, Pending)], 2, 2, 0, None,
          [Leased(0, "h", 0), Leased(1, "h", 0)], [], [], {0, 1}, false, 2)
  }

  function Full(x: string, y: string): State {
    State(map[x := Slot(0, {"h"}, 0), y := Slot(1, {"h"}, 0)], [], 0, map[], 0, 2, 0, None,
          [Leased(0, "h", 0), Leased(1, "h", 0)], [], [], {0, 1}, true, 2)
  }

  lemma ReachFull(limits: Limits, x: string, y: string)
    requires x != y
    ensures Reachable(2, limits, Full(x, y))
  {
    var s0 := NewPool(2);
    ReachStart(2, limits);
    ReachHolding(2, limits, s0, x, "h");
    var s1 := Put(Starting(s0, x), x, "h");
    SizeWith(s0.slot, x, Slot(0, {"h"}, 0));
    ReachHolding(2, limits, s1, y, "h");
    assert Put(Starting(s1, y), y, "h") == Full(x, y);
  }

  lemma ReachCrowded(limits: Limits, x: string, y: string, b: string)
    requires x != y && x != b && y != b
    ensures Reachable(2, limits, Crowded(x, y, b))
  {
    var s0 := Full(x, y);
    ReachFull(limits, x, y);
    ReachWaiting(2, limits, s0, b);
    var s1 := Enqueued(Entering(s0, b), b);
    assert 0 in s1.waiting && s1.waiting[0].thread == b;
    ReachWaiting(2, limits, s1, b);
    assert Enqueued(Entering(s1, b), b) == Crowded(x, y, b);
  }

  /** Both containers discarded, both waiters granted. */
  function Emptied(b: string): State {
    State(map[], [], 2, map[0 := Waiter(b, Granted), 1 := Waiter(b, Granted)], 2, 2, 0, None,
          [Leased(0, "h", 0), Leased(1, "h", 0), Stopped(0, Discarded), Stopped(1, Discarded)], [0, 1], [], {},
          false, 2)
  }

  function HalfEmptied(y: string, b: string): State {
    State(map[y := Slot(1, {"h"}, 0)], [1], 1, map[0 := Waiter(b, Granted), 1 := Waiter(b, Pending)], 2, 2, 0, None,
          [Leased(0, "h", 0), Leased(1, "h", 0), Stopped(0, Discarded)], [0], [], {1}, false, 2)
  }

  lemma ReachHalfEmptied(limits: Limits, x: string, y: string, b: string)
    requires x != y && x != b && y != b
    ensures Reachable(2, limits, HalfEmptied(y, b))
  {
    var s := Crowded(x, y, b);
    ReachCrowded(limits, x, y, b);
    assert s.slot - {x} == map[y := Slot(1, {"h"}, 0)];
    ReachGranted(2, limits, s, x);
    assert Granting(Popped(s, x, Discarded)) == HalfEmptied(y, b);
  }

  lemma ReachEmptied(limits: Limits, x: string, y: string, b: string)
    requires x != y && x != b && y != b
    ensures Reachable(2, limits, Emptied(b))
  {
    var s := HalfEmptied(y, b);
    ReachHalfEmptied(limits, x, y, b);
    assert s.slot - {y} == map[];
    ReachGranted(2, limits, s, y);
    assert Granting(Popped(s, y, Discarded)) == Emptied(b);
  }

  lemma OneContainer(t: string, one: Slot)
    ensures Containers(map[t := one]) == {one.container}
  {
    var slot := map[t := one];
    assert t in slot && slot[t].container == one.container;
    forall c | c in Containers(slot) ensures c == one.container {
      var u :| u in slot && slot[u].container == c;
    }
  }

  /** With two acquires of one thread in progress the second start takes the slot, and the first container runs on. */
  lemma OverwriteLoses(limits: Limits, x: string, y: string, b: string)
    requires x != y && x != b && y != b
    ensures exists s :: Reachable(2, limits, s) && s.slot.Keys == {b} && s.slot[b].container == 3 && Unlisted(s) == {2}
  {
    var s0 := Emptied(b);
    ReachEmptied(limits, x, y, b);
    ReachStarted(2, limits, s0, 0, "h");
    var s1 := Put(Resumed(s0, 0), b, "h");
    ReachStarted(2, limits, s1, 1, "g");
    var s2 := Put(Resumed(s1, 1), b, "g");
    assert s2.slot == map[b := Slot(3, {"g"}, 0)] && s2.running == {2, 3};
    OneContainer(b, Slot(3, {"g"}, 0));
  }
}
