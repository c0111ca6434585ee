/**
 * The memory outbox (src/app/memory/job.py, src/app/memory/worker.py): a retrying job that any number of workers
 * and stale sweeps race on, and the usage ledger that retries add to.
 */
module Outbox {
  import opened Common

  datatype Status = Queued | Running | Succeeded | Failed | Discarded

  predicate Terminal(status: Status) {
    status.Succeeded? || status.Failed? || status.Discarded?
  }

  /** A row: `created` orders the claims, `started` is the stale sweep's clock. */
  datatype Job = Job(status: Status, attempts: nat, created: nat, started: Option<nat>, error: Option<string>)

  // ---- The row updates, each with its WHERE clause ----

  function Claimed(job: Job, now: nat): Job {
    if job.status.Queued?
    then job.(status := Running, attempts := job.attempts + 1, started := Some(now), error := None)
    else job
  }

  function Finished(job: Job, status: Status, error: Option<string>): Job {
    if job.status.Running? then job.(status := status, error := error) else job
  }

  function Requeued(job: Job, error: string): Job {
    if job.status.Running? then job.(status := Queued, started := None, error := Some(error)) else job
  }

  predicate Stale(job: Job, before: nat) {
    job.status.Running? && job.started.Some? && job.started.value < before
  }

  function StaleRequeued(job: Job, before: nat): Job {
    if Stale(job, before) then job.(status := Queued, started := None, error := Some("timed out")) else job
  }

  // ---- One job under every interleaving ----

  /** How a worker's pass over its job ends. */
  datatype Outcome = Complete | Discard | Error(message: string)

  datatype Step =
    | Claim(worker: nat, now: nat)
    | Settle(worker: nat, outcome: Outcome)
    | Sweep(before: nat)
    | Crash(worker: nat)

  /**
   * `held` maps each worker that is processing the job to the attempt number it saw; `writes` are the terminal
   * writes that hit; `retried` the attempt numbers whose error put the job back; `swept` the stale sweeps that hit.
   */
  datatype State = State(job: Job, held: map<nat, nat>, claims: nat, writes: seq<Status>, retried: set<nat>, swept: nat)

  function Initial(created: nat): State {
    State(Job(Queued, 0, created, None, None), map[], 0, [], {}, 0)
  }

  function Write(s: State, status: Status, error: Option<string>): State {
    s.(job := Finished(s.job, status, error), writes := if s.job.status.Running? then s.writes + [status] else s.writes)
  }

  /** The end of run_once: an error retries while attempts remain, then fails for good. */
  function Settled(s: State, attempt: nat, outcome: Outcome, maxAttempts: nat): State {
    match outcome
    case Complete => Write(s, Succeeded, None)
    case Discard => Write(s, Discarded, None)
    case Error(message) =>
      if attempt < maxAttempts
      then s.(job := Requeued(s.job, message),
              retried := if s.job.status.Running? then s.retried + {attempt} else s.retried)
      else Write(s, Failed, Some(message))
  }

  function Next(s: State, step: Step, maxAttempts: nat): State {
    match step
    case Claim(w, now) =>
      if w in s.held || !s.job.status.Queued? then s
      else s.(job := Claimed(s.job, now), held := s.held[w := s.job.attempts + 1], claims := s.claims + 1)
    case Settle(w, outcome) =>
      if w !in s.held then s else Settled(s, s.held[w], outcome, maxAttempts).(held := s.held - {w})
    case Sweep(before) =>
      s.(job := StaleRequeued(s.job, before), swept := if Stale(s.job, before) then s.swept + 1 else s.swept)
    case Crash(w) => s.(held := s.held - {w})
  }

  function Run(s: State, steps: seq<Step>, maxAttempts: nat): State {
    if steps == [] then s else Next(Run(s, steps[..|steps| - 1], maxAttempts), steps[|steps| - 1], maxAttempts)
  }

  ghost predicate Inv(s: State, maxAttempts: nat) {
    && s.job.attempts == s.claims
    && (if Terminal(s.job.status) then s.writes == [s.job.status] else s.writes == [])
    // Every claim beyond the first answered a retry or a stale sweep.
    && s.claims + (if s.job.status.Queued? then 1 else 0) == 1 + |s.retried| + s.swept
    && (forall a :: a in s.retried ==> 1 <= a < maxAttempts && a <= s.claims)
    && (forall w :: w in s.held ==> 1 <= s.held[w] <= s.claims && s.held[w] !in s.retried)
    && (forall v, w :: v in s.held && w in s.held && s.held[v] == s.held[w] ==> v == w)
  }

  lemma SettleKeepsInv(s: State, w: nat, outcome: Outcome, maxAttempts: nat)
    requires Inv(s, maxAttempts) && w in s.held
    ensures Inv(Next(s, Settle(w, outcome), maxAttempts), maxAttempts)
  {}

  lemma NextKeepsInv(s: State, step: Step, maxAttempts: nat)
    requires Inv(s, maxAttempts)
    ensures Inv(Next(s, step, maxAttempts), maxAttempts)
  {
    match step
    case Settle(w, outcome) => if w in s.held { SettleKeepsInv(s, w, outcome, maxAttempts); }
    case _ =>
  }

  lemma {:induction false} RunKeepsInv(created: nat, steps: seq<Step>, maxAttempts: nat)
    ensures Inv(Run(Initial(created), steps, maxAttempts), maxAttempts)
  {
    if steps == [] {
    } else {
      RunKeepsInv(created, steps[..|steps| - 1], maxAttempts);
      NextKeepsInv(Run(Initial(created), steps[..|steps| - 1], maxAttempts), steps[|steps| - 1], maxAttempts);
    }
  }

  lemma {:induction false} BelowIsSmall(s: set<nat>, n: nat)
    requires forall a :: a in s ==> 1 <= a < n
    ensures |s| <= if n == 0 then 0 else n - 1
  {
    if n <= 1 {
      assert s == {};
    } else {
      BelowIsSmall(s - {n - 1}, n - 1);
    }
  }

  /**
   * Whatever workers, crashes and stale sweeps do: at most one terminal write, `attempts` counts the claims, and
   * the job is claimed at most maxAttempts times plus once per stale sweep that hit it.
   */
  lemma OutboxRuns(created: nat, steps: seq<Step>, maxAttempts: nat)
    requires maxAttempts > 0
    ensures var s := Run(Initial(created), steps, maxAttempts);
            && |s.writes| <= 1
            && (Terminal(s.job.status) <==> s.writes == [s.job.status])
            && s.job.attempts == s.claims <= maxAttempts + s.swept
  {
    RunKeepsInv(created, steps, maxAttempts);
    BelowIsSmall(Run(Initial(created), steps, maxAttempts).retried, maxAttempts);
  }

  predicate IsSweep(step: Step) { step.Sweep? }

  lemma {:induction false} NoSweepNoSwept(created: nat, steps: seq<Step>, maxAttempts: nat)
    requires forall i :: 0 <= i < |steps| ==> !IsSweep(steps[i])
    ensures Run(Initial(created), steps, maxAttempts).swept == 0
  {
    if steps == [] {
    } else {
      NoSweepNoSwept(created, steps[..|steps| - 1], maxAttempts);
      assert !IsSweep(steps[|steps| - 1]);
    }
  }

  /** Without stale sweeps the retry limit is exact. */
  lemma ClaimsWithoutSweeps(created: nat, steps: seq<Step>, maxAttempts: nat)
    requires maxAttempts > 0
    requires forall i :: 0 <= i < |steps| ==> !IsSweep(steps[i])
    ensures Run(Initial(created), steps, maxAttempts).claims <= maxAttempts
  {
    OutboxRuns(created, steps, maxAttempts);
    NoSweepNoSwept(created, steps, maxAttempts);
  }

  /** Over any run the limit holds exactly while the retries and the stale sweeps that hit have not used it up. */
  lemma LimitHoldsIff(created: nat, steps: seq<Step>, maxAttempts: nat)
    ensures var s := Run(Initial(created), steps, maxAttempts);
            s.claims <= maxAttempts <==> |s.retried| + s.swept < maxAttempts + if s.job.status.Queued? then 1 else 0
  {
    RunKeepsInv(created, steps, maxAttempts);
  }

  /** A stale sweep does push the job past the limit: a limit of one, and two claims. */
  lemma SweepExceedsLimit(created: nat)
    ensures var s1 := Next(Initial(created), Claim(0, 0), 1);
            var s2 := Next(Next(s1, Crash(0), 1), Sweep(1), 1);
            Next(s2, Claim(0, 1), 1).claims == 2
  {}

  /** A terminal job never changes again. */
  lemma {:induction false} TerminalIsFinal(s: State, steps: seq<Step>, maxAttempts: nat)
    requires Terminal(s.job.status)
    ensures Run(s, steps, maxAttempts).job == s.job
    ensures Run(s, steps, maxAttempts).writes == s.writes
  {
    if steps == [] {
    } else {
      TerminalIsFinal(s, steps[..|steps| - 1], maxAttempts);
    }
  }

  // ---- The usage ledger of one run and stage ----

  datatype Usage = Usage(tokens: nat, cost: real, duration: nat, hits: nat, rejected: nat, reason: Option<string>)

  const NO_USAGE := Usage(0, 0.0, 0, 0, 0, None)

  /** What is written for a call on top of what was read before it. */
  function Combined(previous: Usage, call: Usage): Usage {
    Usage(previous.tokens + call.tokens, previous.cost + call.cost, previous.duration + call.duration,
          previous.hits + call.hits, previous.rejected + call.rejected,
          if call.reason.Some? then call.reason else previous.reason)
  }

  /** The sum of the calls, counter by counter, with the last reason given. */
  function Total(calls: seq<Usage>): Usage {
    if calls == [] then NO_USAGE
    else
      var sum, last := Total(calls[..|calls| - 1]), calls[|calls| - 1];
      Usage(sum.tokens + last.tokens, sum.cost + last.cost, sum.duration + last.duration, sum.hits + last.hits,
            sum.rejected + last.rejected, if last.reason.None? then sum.reason else last.reason)
  }

  /** `row` is the stored usage (none: absent); `open` the reads not yet written back; `recorded` the calls written. */
  datatype Ledger = Ledger(row: Usage, open: map<nat, (Usage, Usage)>, recorded: seq<Usage>)

  const EMPTY_LEDGER := Ledger(NO_USAGE, map[], [])

  datatype LedgerStep = ReadBack(worker: nat, call: Usage) | WriteBack(worker: nat) | Abandon(worker: nat)

  function LedgerNext(l: Ledger, step: LedgerStep): Ledger {
    match step
    case ReadBack(w, call) => if w in l.open then l else l.(open := l.open[w := (l.row, call)])
    case WriteBack(w) =>
      if w !in l.open then l
      else
        var (previous, call) := l.open[w];
        Ledger(Combined(previous, call), l.open - {w}, l.recorded + [call])
    case Abandon(w) => l.(open := l.open - {w})
  }

  function LedgerRun(steps: seq<LedgerStep>): Ledger {
    if steps == [] then EMPTY_LEDGER else LedgerNext(LedgerRun(steps[..|steps| - 1]), steps[|steps| - 1])
  }

  lemma TotalOfOneMore(calls: seq<Usage>, call: Usage)
    ensures Total(calls + [call]) == Combined(Total(calls), call)
  {
    assert (calls + [call])[..|calls|] == calls;
  }

  /** A write-back keeps the counters equal to the sum exactly when they still are what its read returned. */
  lemma WriteBackExactIff(l: Ledger, w: nat)
    requires l.row == Total(l.recorded) && w in l.open
    ensures var t := LedgerNext(l, WriteBack(w));
            t.row.(reason := None) == Total(t.recorded).(reason := None) <==>
            l.open[w].0.(reason := None) == l.row.(reason := None)
  {
    var (previous, call) := l.open[w];
    TotalOfOneMore(l.recorded, call);
    CombinedSame(previous, l.row, call);
  }

  /** Adding the same call to two counters makes them equal exactly when they were. */
  lemma CombinedSame(a: Usage, b: Usage, call: Usage)
    ensures Combined(a, call).(reason := None) == Combined(b, call).(reason := None) <==>
            a.(reason := None) == b.(reason := None)
  {
    assert a.cost + call.cost == b.cost + call.cost <==> a.cost == b.cost;
  }

  predicate By(step: LedgerStep, w: nat) { step.worker == w }

  /** With one worker, whatever it abandons to crashes, the ledger is the sum of all the calls it recorded. */
  lemma {:induction false} OneWorkerLedgerIsExact(steps: seq<LedgerStep>, w: nat)
    requires forall i :: 0 <= i < |steps| ==> By(steps[i], w)
    ensures var l := LedgerRun(steps);
            && l.row == Total(l.recorded)
            && l.open.Keys <= {w}
            && (w in l.open ==> l.open[w].0 == l.row)
  {
    if steps == [] {
    } else {
      var init := steps[..|steps| - 1];
      OneWorkerLedgerIsExact(init, w);
      assert By(steps[|steps| - 1], w);
      var l := LedgerRun(init);
      if steps[|steps| - 1].WriteBack? && w in l.open {
        TotalOfOneMore(l.recorded, l.open[w].1);
      }
    }
  }

  /** Two workers on one job, after a stale sweep, can lose a call. */
  lemma TwoWorkersLoseUsage(call: Usage)
    requires call.tokens > 0
    ensures var read := LedgerNext(LedgerNext(EMPTY_LEDGER, ReadBack(0, call)), ReadBack(1, call));
            var l := LedgerNext(LedgerNext(read, WriteBack(0)), WriteBack(1));
            l.recorded == [call, call] && l.row.tokens < Total(l.recorded).tokens
  {}

  // ---- The job table ----

  /** ORDER BY created, id. */
  predicate Earlier(rows: map<nat, Job>, a: nat, b: nat)
    requires a in rows && b in rows
  {
    rows[a].created < rows[b].created || (rows[a].created == rows[b].created && a <= b)
  }

  class JobTable {
    var rows: map<nat, Job>

    constructor (rows: map<nat, Job>)
      ensures this.rows == rows
    {
      this.rows := rows;
    }

    /** Take the earliest queued job. */
    method Claim(now: nat) returns (claimed: Option<nat>)
      modifies this
      ensures claimed.None? <==> forall id :: id in old(rows) ==> !old(rows)[id].status.Queued?
      ensures claimed.None? ==> rows == old(rows)
      ensures claimed.Some? ==>
                && claimed.value in old(rows) && old(rows)[claimed.value].status.Queued?
                && (forall id :: id in old(rows) && old(rows)[id].status.Queued? ==>
                      var one, first := old(rows)[id], old(rows)[claimed.value];
                      first.created < one.created || (first.created == one.created && claimed.value <= id))
                && var before := old(rows)[claimed.value];
                rows == old(rows)[claimed.value := Job(Running, before.attempts + 1, before.created, Some(now), None)]
    {
      claimed := None;
      var ids := rows.Keys;
      var seen: set<nat> := {};
      while ids - seen != {}
        invariant seen <= ids == rows.Keys && rows == old(rows)
        invariant claimed.None? ==> forall id :: id in seen ==> !rows[id].status.Queued?
        invariant claimed.Some? ==>
                    && claimed.value in rows && rows[claimed.value].status.Queued?
                    && forall id :: id in seen && rows[id].status.Queued? ==> Earlier(rows, claimed.value, id)
        decreases ids - seen
      {
        var id :| id in ids - seen;
        if rows[id].status.Queued? && (claimed.None? || Earlier(rows, id, claimed.value)) {
          claimed := Some(id);
        }
        seen := seen + {id};
      }
      assert seen == ids;
      if claimed.Some? {
        rows := rows[claimed.value := Claimed(rows[claimed.value], now)];
      }
    }

    /** Put back what a crashed worker left running. */
    method RequeueStale(before: nat) returns (count: nat)
      modifies this
      ensures rows.Keys == old(rows).Keys
      ensures forall id :: id in rows && rows[id] != old(rows)[id] ==>
                var job := old(rows)[id];
                && job.status.Running? && job.started.Some? && job.started.value < before
                && rows[id] == Job(Queued, job.attempts, job.created, None, Some("timed out"))
      ensures forall id :: id in rows && rows[id].status.Running? && rows[id].started.Some? ==>
                before <= rows[id].started.value
      ensures |InProgress(rows)| == |InProgress(old(rows))| - count
    {
      count := |Stales(rows, before)|;
      rows := map id | id in rows :: StaleRequeued(rows[id], before);
      StaleLeave(old(rows), rows, before);
    }

    /** A running job goes back to the queue. */
    method Requeue(id: nat, error: string) returns (changed: bool)
      modifies this
      ensures changed <==> id in InProgress(old(rows))
      ensures InProgress(rows) == InProgress(old(rows)) - {id}
      ensures !changed ==> rows == old(rows)
      ensures changed ==>
                var job := old(rows)[id];
                rows == old(rows)[id := Job(Queued, job.attempts, job.created, None, Some(error))]
    {
      changed := id in rows && rows[id].status.Running?;
      if changed {
        rows := rows[id := Requeued(rows[id], error)];
      }
    }

    /** A running job gets its terminal status; no other job ever does. */
    method Finish(id: nat, status: Status, error: Option<string>) returns (changed: bool)
      requires Terminal(status)
      modifies this
      ensures changed <==> id in InProgress(old(rows))
      ensures InProgress(rows) == InProgress(old(rows)) - {id}
      ensures !changed ==> rows == old(rows)
      ensures changed ==>
                var job := old(rows)[id];
                rows == old(rows)[id := Job(status, job.attempts, job.created, job.started, error)]
    {
      changed := id in rows && rows[id].status.Running?;
      if changed {
        rows := rows[id := Finished(rows[id], status, error)];
      }
    }
  }

  function InProgress(rows: map<nat, Job>): set<nat> {
    set id | id in rows && rows[id].status.Running?
  }

  function Stales(rows: map<nat, Job>, before: nat): set<nat> {
    set id | id in rows && Stale(rows[id], before)
  }

  lemma StaleLeave(a: map<nat, Job>, b: map<nat, Job>, before: nat)
    requires b == map id | id in a :: StaleRequeued(a[id], before)
    ensures |InProgress(b)| == |InProgress(a)| - |Stales(a, before)|
  {
    assert InProgress(a) == InProgress(b) + Stales(a, before);
    assert InProgress(b) !! Stales(a, before);
  }

  class Worker {
    const table: JobTable
    const maxAttempts: nat
    /** How many updates others have made while this worker was at work. */
    ghost var others: nat

    constructor (table: JobTable, maxAttempts: nat)
      requires maxAttempts > 0
      ensures this.table == table && this.maxAttempts == maxAttempts
    {
      this.table, this.maxAttempts, others := table, maxAttempts, 0;
    }

    /** Other workers and the stale sweep, any number of their updates. */
    method Interfere()
      modifies this, table
      ensures table.rows.Keys == old(table.rows.Keys)
      ensures forall id :: id in table.rows && Terminal(old(table.rows)[id].status) ==>
                table.rows[id] == old(table.rows)[id]
      ensures others >= old(others) && (others == old(others) ==> table.rows == old(table.rows))
    {
      var n: nat := *;
      while n > 0
        invariant table.rows.Keys == old(table.rows.Keys)
        invariant forall id :: id in table.rows && Terminal(old(table.rows)[id].status) ==>
                    table.rows[id] == old(table.rows)[id]
        invariant others >= old(others) && (others == old(others) ==> table.rows == old(table.rows))
      {
        AnyUpdate();
        n := n - 1;
      }
    }

    method AnyUpdate()
      modifies this, table
      ensures table.rows.Keys == old(table.rows.Keys) && others == old(others) + 1
      ensures forall id :: id in table.rows && Terminal(old(table.rows)[id].status) ==>
                table.rows[id] == old(table.rows)[id]
    {
      var id: nat, time: nat, status: Status := *, *, *;
      others := others + 1;
      if * {
        var _ := table.Claim(time);
      } else if * {
        var _ := table.Requeue(id, "");
      } else if Terminal(status) {
        var _ := table.Finish(id, status, None);
      } else {
        var _ := table.RequeueStale(time);
      }
    }

    /**
     * One pass over one job; `outcome` is how guard, extraction, writing and consolidation went, `found` the row as the
     * pass finds it when it settles.
     */
    method RunOnce(now: nat, outcome: Outcome) returns (job: Option<nat>, ghost found: Job)
      modifies this, table
      ensures job.None? <==> forall id :: id in old(table.rows) ==> !old(table.rows)[id].status.Queued?
      ensures job.None? ==> table.rows == old(table.rows)
      ensures job.Some? ==>
                && job.value in old(table.rows) && old(table.rows)[job.value].status.Queued?
                && (forall id :: id in old(table.rows) && old(table.rows)[id].status.Queued? ==>
                      Earlier(old(table.rows), job.value, id))
                && job.value in table.rows
      ensures job.Some? ==>
                var attempt := old(table.rows)[job.value].attempts + 1;
                && PassEnds(found, table.rows[job.value], attempt, outcome, maxAttempts)
                && table.rows[job.value] == Settled(Alone(found), attempt, outcome, maxAttempts).job
                && (others == old(others) ==> found.status.Running? && found.attempts == attempt)
                && (others == old(others) ==>
                      table.rows.Keys == old(table.rows).Keys &&
                      forall id :: id in table.rows && id != job.value ==> table.rows[id] == old(table.rows)[id])
    {
      found := Job(Queued, 0, 0, None, None);
      job := table.Claim(now);
      if job.None? {
        return;
      }
      var attempt := table.rows[job.value].attempts;
      Interfere();
      found := table.rows[job.value];
      match outcome {
        case Complete => var _ := table.Finish(job.value, Succeeded, None);
        case Discard => var _ := table.Finish(job.value, Discarded, None);
        case Error(message) =>
          if attempt < maxAttempts {
            var _ := table.Requeue(job.value, message);
          } else {
            var _ := table.Finish(job.value, Failed, Some(message));
          }
      }
    }
  }

  /** The state machine with only this row in it. */
  function Alone(job: Job): State {
    State(job, map[], 0, [], {}, 0)
  }

  /**
   * How a pass ends: a row no longer running is left alone; else it succeeds, is discarded, or after an error goes back
   * to the queue exactly while attempts remain and fails for good otherwise.
   */
  predicate PassEnds(found: Job, row: Job, attempt: nat, outcome: Outcome, maxAttempts: nat) {
    && row.attempts == found.attempts && row.created == found.created
    && if !found.status.Running? then row == found
       else
         match outcome
         case Complete => row.status.Succeeded? && row.error == None
         case Discard => row.status.Discarded? && row.error == None
         case Error(message) =>
           && row.error == Some(message)
           && (row.status.Queued? <==> attempt < maxAttempts)
           && (row.status.Failed? <==> maxAttempts <= attempt)
  }

  /** The steps of n passes of one worker over one job, each ending in an error. */
  function FailingPasses(n: nat, message: string): seq<Step> {
    if n == 0 then [] else FailingPasses(n - 1, message) + [Claim(0, n)] + [Settle(0, Error(message))]
  }

  lemma RunLast(s: State, steps: seq<Step>, step: Step, maxAttempts: nat)
    ensures Run(s, steps + [step], maxAttempts) == Next(Run(s, steps, maxAttempts), step, maxAttempts)
  {
    assert (steps + [step])[..|steps|] == steps;
  }

  /** Passes that all end in errors leave the job queued until the limit is reached, and then failed for good. */
  lemma {:induction false} ErrorsUseUpAttempts(created: nat, n: nat, message: string, maxAttempts: nat)
    requires maxAttempts > 0
    ensures var s := Run(Initial(created), FailingPasses(n, message), maxAttempts);
            && s.held == map[]
            && s.job.attempts == (if n < maxAttempts then n else maxAttempts)
            && s.job.status == if n < maxAttempts then Queued else Failed
  {
    if n == 0 {
    } else {
      ErrorsUseUpAttempts(created, n - 1, message, maxAttempts);
      var before := FailingPasses(n - 1, message);
      RunLast(Initial(created), before, Claim(0, n), maxAttempts);
      RunLast(Initial(created), before + [Claim(0, n)], Settle(0, Error(message)), maxAttempts);
      OneFailingPass(Run(Initial(created), before, maxAttempts), n, message, maxAttempts);
    }
  }

  lemma OneFailingPass(s: State, now: nat, message: string, maxAttempts: nat)
    requires s.held == map[] && (s.job.status.Queued? || s.job.status.Failed?)
    ensures var t := Next(Next(s, Claim(0, now), maxAttempts), Settle(0, Error(message)), maxAttempts);
            && t.held == map[]
            && if s.job.status.Failed? then t.job == s.job
               else
                 && t.job.attempts == s.job.attempts + 1
                 && t.job.status == if t.job.attempts < maxAttempts then Queued else Failed
  {
    var claimed := Next(s, Claim(0, now), maxAttempts);
    if s.job.status.Queued? {
      assert claimed.held == map[0 := s.job.attempts + 1];
      assert claimed.held - {0} == map[];
    }
  }
}
