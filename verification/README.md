# Verified model of the agent service's stateful core

The service runs analyses for teachers: a worker drives each run, a broker hands out sandbox containers, events go to a
Redis stream and to a Postgres archive, and every conversation thread keeps a private directory of memory records. This
project models the parts of it whose correctness lives across many steps or many processes, and proves what they
promise. `dafny verify dfyconfig.toml` checks everything.

| module | models |
|---|---|
| `MemoryDir`, `MemoryRecord`, `MemoryVersion`, `MemoryStore` | the crash-safe record directory, the record files, the content version, the compare-and-swap store and the worker's use of it |
| `PoolState`, `PoolRuns`, `SandboxPool` | the container pool: its steps as a state machine, two runs that lose a container, and its methods with their loops and awaits |
| `RunLifecycle`, `RunPaths`, `Reaper` | the racing actors on one run's row and event log; why each actor does what it does; the orphan sweep |
| `TaskQueue` | the consumer-group stream, the snapshot of runs still in flight, and the orphans found by it |
| `EventId`, `EventLog`, `Subscription`, `EventFollow` | packed event ids, the stream plus archive as one log, a subscription as its reads, the service that appends, reads and follows |
| `Replay` | compaction of a run's history |
| `SkillAlign` | aligning a workspace's skill tree to chosen versions |
| `Outbox` | the memory job queue with retries, and the usage ledger |
| `Utf8` | UTF-8 decoding under section 4 of RFC 3629 and the truncated preview |
| `Names`, `Common` | sorted listings of names; an option type and small facts about sequences and maps |

How concurrency is modelled. Where the code awaits, holds no lock, or shares a row or a stream with others, a method
named `Interfere` performs any number of the steps others can take there, and the contracts hold whatever it did. Where
a property is about whole runs (`RunLifecycle`, `Outbox`, `PoolState`, `EventLog`), the steps form a state machine and
the theorems quantify over all step sequences. Crashes are steps too: `MemoryDir` records every state the directory
passes through, and its contracts speak about each of them, since each is a place a crash can cut.

What is taken from outside. SHA-256 is injective, so a version is the hashed bytes and equal digests are equal contents.
YAML gives back the front matter it was given, without a carriage return or a line of three dashes inside it
(`MemoryRecord.Faithful`). Redis commands, SQL statements and single filesystem calls are atomic, and filesystem calls
persist in program order. Clocks, random choices and failures are arbitrary values.

Six results where the code does less than its own comments or a reader would expect; each is stated exactly.

- Export lists records by file name, and `a-b.md` sorts before `a.md`. The docstring of `list` promises slug order; it
  holds if and only if no stored slug is another one continued by a hyphen (`MemoryStore.ExportOrderIff`).
- The comment in `_ended` says a terminal event is the last thing a run emits. A worker that is still streaming can append
  after a teacher's cancel (`RunLifecycle.TerminalEventNeedNotBeLast`). On a terminal row the log is final if and only if
  no actor is announcing, acquiring, streaming or emitting (`RunLifecycle.LogIsFinalIff`), and a logged terminal event
  stays the last one if and only if it is the last now and that holds (`RunLifecycle.TerminalEventStaysLastIff`).
- `align` promises to delete everything outside the list. `_remove` has no branch for sockets, FIFOs and devices; the
  result is exact if and only if none of those has only wanted directories above it (`SkillAlign.AlignedExactIff`). At a
  desired file a device or a read FIFO swallows the content and the call returns all the same.
- `acquire` is cancelled when its client disconnects (src/app/broker/route.py:657-662). At the await of the start the
  container comes up all the same and no slot lists it. Over any run the books list exactly the running containers if
  and only if no start was cut off there and none took a slot already taken (`PoolState.BooksExactIff`).
- `in_flight` answers the empty set while the consumer group does not exist; its docstring says no queued run can exist
  then. Only a starting worker creates the group (src/app/worker/loop.py:67) and `publish` does not, so a run submitted
  earlier is live and not in the answer (`TaskQueue.SubmittedBeforeWorkers`). The snapshot misses nothing if and only if
  the group existed at its first read or the stream was empty then (`TaskQueue.InFlightMissesNothingIff`), and the reaper
  lists no live run if and only if the group existed or no unfinished run had a message (`TaskQueue.OrphansAreDeadIff`).
- `read` asks the stream first and the archive later, and an append is in the stream before its row is in the archive.
  When the stream has nothing past the cursor, a second append archived in between makes the read return that one and
  skip the first for good (`EventLog.AppendAwaitingRowIsSkipped`). A read is a stretch of the log if and only if
  whatever it did not fetch is newer than the stream's answer and than all it did fetch, and packing brought in nothing
  from before the cursor (`EventLog.ReadIsLogIff`); a whole subscription yields a stretch of the log if and only if none
  of its reads skipped anything (`Subscription.FollowIsLogIff`).

Further boundaries are proved as such: the recovery window under `.promoting` (`MemoryDir.CutRecoveryIff`), content with
carriage returns (`MemoryRecord.RoundTripIff`), colliding packed ids (`EventId.UnpackOfPackIff`), places lost when a
waiter gives up (`PoolState.LedgerIs`), containers lost when acquires overlap on one thread (`PoolRuns.OverwriteLoses`),
cursors whose sequence number does not fit the packed key (`EventLog.ReadIsLogIff`), the approval sweep hitting a row
that has been approved meanwhile (`RunLifecycle.SweepHitsReopenedIff`), a notice lost when its append raises
(`Reaper.RaisedNoticeIsLost`), claims beyond the limit after a stale sweep (`Outbox.LimitHoldsIff`) and usage lost between
two workers (`Outbox.WriteBackExactIff`).

## Model

| member | source | states |
|---|---|---|
| `MemoryDir.MemoryDirectory.ReplaceFiles` | src/app/memory/store.py:355-424 | with a fault or crash after any filesystem step: every state before the marker rename recovers to exactly the old entries (in the handler, outside the window), every state from it on to exactly the new ones; one fault before the rename is re-raised with the directory as it was, only a second one in the handler is worse, and otherwise the call ends with the new set, clean if nothing failed |
| `MemoryDir.MemoryDirectory.CommitPhase` | src/app/memory/store.py:371-393 | up to the rename every state recovers to the old set; a fault leaves a state the handler can undo; the rename leaves the new set committed |
| `MemoryDir.MemoryDirectory.Rollback` | src/app/memory/store.py:398-412 | the handler, if its own steps succeed, restores exactly the old entries with no artefact left; cut anywhere, recovery still gives the old set exactly outside the window |
| `MemoryDir.MemoryDirectory.CleanUp` | src/app/memory/store.py:417-424 | faults while cleaning up never lose the new set; the committed mark goes last |
| `MemoryDir.MemoryDirectory.Recover` | src/app/memory/store.py:427-460 | from any directory state a complete recovery leaves exactly the recoverable set and no artefact; it stops short only at a fault, and cut anywhere it leaves a state described by MidRecovery |
| `MemoryDir.CutRecoveryIff` | src/app/memory/store.py:427-460 | recovery cut in any state and rerun gives the same set if and only if the cut is outside the window from the first restore under the promoting mark to the removal of the backup directory |
| `MemoryDir.RestartedRecovery` | src/app/memory/store.py:427-460 | any number of recoveries, each cut outside the window, converge to the same set |
| `MemoryDir.WindowLosesRestored` | src/app/memory/store.py:452-456 | inside the window a second recovery deletes an entry the first had restored |
| `MemoryRecord.ReadOfSerialize` | src/app/memory/store.py:237-260 | reading back a written record gives its content right-stripped with line ends translated, every other field unchanged |
| `MemoryRecord.NewlinesTranslates` | src/app/memory/store.py:239 | wherever it stands, CR LF becomes one LF and so does a CR on its own; every other character stays |
| `MemoryRecord.SlugIff` | src/app/memory/store.py:39 | a slug is accepted if and only if it is one or more nonempty runs of slug characters joined by single hyphens |
| `MemoryRecord.SlugCharIff` | src/app/memory/store.py:39 | the slug characters are the lower-case letters and the digits |
| `MemoryRecord.RoundTripIff` | src/app/memory/store.py:328-334 | the round trip is exact up to right-stripping if and only if no carriage return is left in the content |
| `MemoryRecord.ReadIsWellformed` | src/app/memory/store.py:237-260 | whatever is on disk, a record that reads at all is valid and free of carriage returns |
| `MemoryRecord.Fault` | src/app/memory/store.py:310-325 | validation raises exactly for malformed slugs, blank or multi-line fields, unknown types and over-long content, and reports the length only when all else is right |
| `MemoryVersion.HashedInjective` | src/app/memory/store.py:343-352 | the length-prefixed bytes determine the list of file names and contents |
| `MemoryVersion.VersionIff` | src/app/memory/store.py:343-352 | two sets read from disk have the same version if and only if they are the same up to right-stripping |
| `MemoryVersion.SlugOrderIff` | src/app/memory/store.py:228-235 | a listing by file name is a listing by slug if and only if no slug is another one continued by a hyphen |
| `MemoryVersion.FileOrderIsNotSlugOrder` | src/app/memory/store.py:230-234 | the concrete pair: a precedes a-b as a slug, and follows it as a file |
| `MemoryStore.ScanFiles` | src/app/memory/store.py:228-235 | the loop returns the records of the sorted record files, or the first error in that order |
| `MemoryStore.ScanOkIff` | src/app/memory/store.py:228-235 | a scan succeeds if and only if every record file reads |
| `MemoryStore.ScanBlames` | src/app/memory/store.py:228-235 | a failed scan reports what is wrong with the first file, in order, that does not read |
| `MemoryStore.ScanTable` | src/app/memory/store.py:228-235 | a scan holds exactly one valid record per record file, what that file says, in file-name order |
| `MemoryStore.ScanOfPayload` | src/app/memory/store.py:287-290 | scanning the files written for a set gives exactly that set, as the store keeps it |
| `MemoryStore.ExportIsStrippedIff` | src/app/memory/store.py:106-111 | export returns the right-stripped records if and only if no content has a carriage return left in it |
| `MemoryStore.ExportOrderIff` | src/app/memory/store.py:106-111 | export is in slug order if and only if no stored slug is another one continued by a hyphen |
| `MemoryStore.Measure` | src/app/memory/store.py:297-304 | the validation loop reports the first fault in slug order, or the total size |
| `MemoryStore.FaultIsFirst` | src/app/memory/store.py:297-299 | the fault reported is that of the first record that is not well formed |
| `MemoryStore.IndexLinks` | src/app/memory/store.py:337-340 | every record is in the index, with its name, its file, its description and its kind |
| `MemoryStore.Prepare` | src/app/memory/store.py:292-307 | duplicates, then the first invalid record in slug order, then the two size limits, decide the error |
| `MemoryStore.PreparedIff` | src/app/memory/store.py:292-307 | a set is accepted if and only if its slugs differ, every record is valid, and index and total fit |
| `MemoryStore.RefusedBecause` | src/app/memory/store.py:292-307 | a repeated slug is reported first, else the fault of the first record in slug order that is not well formed, else the size |
| `MemoryStore.TotalIsSize` | src/app/memory/store.py:297-304 | the total that is limited is the size of the record files put end to end |
| `MemoryStore.Store.Export` | src/app/memory/store.py:106-111 | after repairing a crash, the scan of the recovered entries and its version; nothing else changes |
| `MemoryStore.Store.Replace` | src/app/memory/store.py:270-290 | success installs the whole set as the store keeps it; a stale version, an invalid or oversized set, or a rolled-back fault leaves the old set; without faults the checks alone decide the answer, in their order; a crash in any state on the way is recoverable |
| `MemoryStore.Store.Write` | src/app/memory/store.py:134-156 | acts as setting one key of the slug-to-record map and returns the stored record; errors leave the map |
| `MemoryStore.Store.Delete` | src/app/memory/store.py:158-183 | acts as removing one key; a missing or malformed slug is an error that changes nothing |
| `MemoryStore.AdmittedIsSame` | src/app/memory/store.py:282-285 | a directory that passes the version check holds the snapshot's set |
| `MemoryStore.Worker.ReplaceWithRollback` | src/app/memory/worker.py:385-407 | with any interference between the calls, neither the replacement nor the rollback gets past its version check on a set different from the snapshot's; the rollback is tried after every failure but a conflict, which leaves the other writer's set |
| `PoolState.StepKeeps` | src/app/sandbox/pool.py:363-434 | every step, lock-free or under the lock, a caller cancelled at its start included, keeps the pool's invariant |
| `PoolState.Capacity` | src/app/sandbox/pool.py:196-271 | over any run, slots plus promised places plus the start under way never exceed the larger of the limit and the number adopted at start-up, the running containers exceed that by at most those no slot lists, and every granted waiter not yet started is covered |
| `PoolState.HeldContainersAreSafe` | src/app/sandbox/pool.py:273-336 | over any run, eviction and idling stop only containers nobody holds by the history, idling only those not used within the idle timeout when that was judged, and a lease is cleared only if no acquire, release, lookup or adoption of its container was logged within the lease timeout before |
| `PoolState.ServiceIsFair` | src/app/sandbox/pool.py:407-434 | over any run, grants are in order of arrival and no waiter is told a worse position than before |
| `PoolState.BooksExactIff` | src/app/sandbox/pool.py:380-395 | over any run, the books list exactly the running containers if and only if no start was cancelled at its await and none took a slot already taken |
| `PoolState.UnlistedNext` | src/app/sandbox/pool.py:380-395 | each step adds to the unlisted containers exactly the one it loses; none is ever stopped or listed again |
| `PoolState.NoContainerIsLost` | src/app/sandbox/pool.py:380-389 | over any run whose acquires never overlap on a thread, a start never takes a slot already taken, and the books are exact if and only if no caller was cancelled while its container was starting |
| `PoolState.LedgerIs` | src/app/sandbox/pool.py:407-434 | over any run, the places promised are the granted waiters not yet started plus the places lost, so the ledger is exact if and only if no waiter was granted after it had gone, cancelled, or forgotten at the lock |
| `PoolRuns.CancelledStartLoses` | src/app/sandbox/pool.py:386-388 | a run of one acquire, cancelled at its start, that leaves a container running in no slot |
| `PoolRuns.OverwriteLoses` | src/app/sandbox/pool.py:380-389 | a run from the empty pool in which two acquires of one thread are both granted, and the second start leaves the first container running and unlisted |
| `SandboxPool.SandboxPool.Pump` | src/app/sandbox/pool.py:407-412 | terminates; ends with the queue empty or with no room and every container held; breaks off only when a waiter gave up; stops nothing while everyone queued fits |
| `SandboxPool.SandboxPool.GrantNext` | src/app/sandbox/pool.py:409-411 | the head of the queue is granted; an emptied queue or a cancelled head leaves a place counted for nobody |
| `SandboxPool.SandboxPool.FindIdle` | src/app/sandbox/pool.py:399-402 | the least recently used idle slot, ties by name, or none exactly when every slot is held |
| `SandboxPool.SandboxPool.EvictIdle` | src/app/sandbox/pool.py:397-405 | stops the least recently used idle container, or nothing when every one is held |
| `SandboxPool.SandboxPool.Acquire` | src/app/sandbox/pool.py:223-229 | a living container of the thread is reused; otherwise the caller gets a started one, or is last in the queue with no room left and every container held; it evicts nothing while there is room, and else exactly the least recently used idle container; it fails only if the start does or the caller is cancelled at an await; containers held on other threads stay |
| `SandboxPool.SandboxPool.ResumeAcquire` | src/app/sandbox/pool.py:241-244 | a granted waiter turns its promise into a container exactly when the start succeeds and the caller is not cancelled there; cancelled there, the container runs in no slot; with serialised acquires no slot is overwritten; containers held on other threads stay |
| `SandboxPool.SandboxPool.AbandonWait` | src/app/sandbox/pool.py:423-434 | a waiter that gives up returns its place if granted, else leaves the queue, and the others are told |
| `SandboxPool.SandboxPool.AnnounceAll` | src/app/sandbox/pool.py:417-421 | every queued waiter is told its position |
| `SandboxPool.SandboxPool.Release` | src/app/sandbox/pool.py:273-288 | one holder leaves; other holders and held containers stay; the queue is served |
| `SandboxPool.SandboxPool.Discard` | src/app/sandbox/pool.py:290-303 | exactly the thread's container goes, whoever holds it, and then the queue is served; every other held container stays |
| `SandboxPool.SandboxPool.Sweep` | src/app/sandbox/pool.py:305-336 | it stops exactly the containers unused since the idle deadline that nobody holds or whose lease has run out by the lease deadline; the others stay, with their holders unless the lease has run out; only serving the queue may evict more, and with an empty queue nothing does |
| `SandboxPool.SandboxPool.Reclaim` | src/app/sandbox/pool.py:246-271 | exactly the found containers whose workspace exists join the books, and the capacity bound grows to no more than their number |
| `SandboxPool.SandboxPool.Close` | src/app/sandbox/pool.py:350-361 | ends with an empty queue and no slot, and no listed container runs on |
| `SandboxPool.SandboxPool.Current` | src/app/sandbox/pool.py:177-194 | returns the thread's container and changes nothing but its time of last use |
| `RunLifecycle.SingleOutcome` | src/app/run/repository.py:339-514 | under every interleaving and crash at most one terminal event is appended, only once the row is terminal, of the row's kind |
| `RunLifecycle.TerminalIsAbsorbing` | src/app/run/repository.py:479-514 | no step changes a terminal row |
| `RunLifecycle.NothingLost` | src/app/run/executor.py:522-545 | without crashes and failed appends a terminal row has its event in the log, or one actor about to append it; once nobody is emitting, it is in the log |
| `RunLifecycle.RunAccounting` | src/app/run/repository.py:339-477 | counters are the sum over exactly the suspends, successes and cancels that hit; at most one memory job and only with success; FIRST at most once plus once per resume |
| `RunLifecycle.TerminalEventNeedNotBeLast` | src/app/run/executor.py:386-438 | a concrete run with an event after the terminal one |
| `RunLifecycle.LogIsFinalIff` | src/app/run/executor.py:283-438 | once the row is terminal, no run of steps appends anything if and only if no actor is announcing, acquiring, streaming or emitting |
| `RunLifecycle.TerminalEventStaysLastIff` | src/app/run/log.py:229-256 | a logged terminal event stays the last event over every run of steps if and only if it is the last now and no actor can still append |
| `RunLifecycle.ApprovalSweepMayHitRunning` | src/app/run/approval.py:122-131 | the sweep cancels a row that has been approved and started since it was listed |
| `RunLifecycle.SweepHitsReopenedIff` | src/app/run/approval.py:122-131 | after any updates of a row listed as waiting, the sweep finds it queued or running if and only if some resume or second start hit and no suspend or ending was tried after it; its cancel hits whatever is not terminal |
| `RunLifecycle.OneEndingHits` | src/app/run/repository.py:479-514 | of any sequence of racing updates on an open row at most one ending hits, and one has hit exactly when the row is terminal |
| `RunLifecycle.Repository.Start` | src/app/run/repository.py:339-358 | refuses terminal rows, answers FIRST exactly for queued ones, and otherwise leaves the row running |
| `RunLifecycle.Consume` | src/app/run/executor.py:386-438 | tokens are the sum over the chunks consumed; consumption stops exactly at the first step boundary that sees the cancel flag |
| `RunLifecycle.DeliveryCarriesTotal` | src/app/run/executor.py:386-400 | a delivery that has taken any chunks carries the total the loop computes, and cancels with it when it notices the flag |
| `RunPaths.PathsAreReasoned` | src/app/run/executor.py:275-560 | over every run, each actor tries each update and appends each event for a reason in what it did and saw before: success only after a stream that ended with nothing pending, suspension only with something pending, either with the sum of the chunks seen; a cancel only after the flag, a gone thread, a listing as expired or the teacher; a failure only after the sandbox, the stream, the listing or an append failed; and what it is about to do is what its path calls for |
| `RunPaths.UpdatesHaveReasons` | src/app/run/repository.py:339-514 | every update in the run's history was tried by an actor whose path up to then gave that reason |
| `Reaper.Sweeper.Sweep` | src/app/run/reaper.py:109-148 | with others updating the rows between any two of its updates, it fails each orphan whose row is open at its turn, appends one notice for each of those in order, and counts them; an update that raises ends it there, an append that raises ends it with that one row failed and unannounced |
| `Reaper.SweepIsExact` | src/app/run/reaper.py:132-148 | whatever others do meanwhile, of the orphans it got to: a run gets at most one notice, and then its row was open and ends failed; every one ends terminal; a terminal row is untouched |
| `Reaper.SecondSweepIsEmpty` | src/app/run/reaper.py:132-148 | sweeping any of the same orphans again, whatever happened in between, appends no notice and changes none of their rows |
| `Reaper.RaisedNoticeIsLost` | src/app/run/reaper.py:138-146 | a run whose notice raised had none before, ends failed, and gets none from any later sweep |
| `TaskQueue.InFlightMissesNothingIff` | src/app/task/queue.py:243-300 | with any commands between its reads, every message published before the snapshot began and unacknowledged when it returned has its run in it, if and only if the group existed at the first read or the stream was empty then |
| `TaskQueue.InFlightHasReason` | src/app/task/queue.py:243-300 | every run in the snapshot has a message that was not acknowledged when it began |
| `TaskQueue.RunsEvolve` | src/app/task/queue.py:144-207 | over any run of group creation, publish, deliver, claim and ack, messages only accumulate, the group stays, delivery only advances, acknowledgement is final |
| `TaskQueue.PendingIff` | src/app/task/queue.py:176-207 | over any run a message is pending exactly from its delivery to its acknowledgement |
| `TaskQueue.TaskStream.Holding` | src/app/task/queue.py:280-292 | reading the pending messages one by one while others work gives the runs of the list as it was |
| `TaskQueue.TaskStream.InFlight` | src/app/task/queue.py:243-271 | the whole snapshot, with interference at every read, empty without a group; it misses nothing under exactly the condition above, and each run in it has a message not acknowledged at the start |
| `TaskQueue.OrphansAreDeadIff` | src/app/run/reaper.py:78-106 | no listed orphan has a live message if and only if the group existed at the first read or no unfinished run had a message then; a run left out has a message that was not acknowledged at the start |
| `TaskQueue.SubmittedBeforeWorkers` | src/app/task/queue.py:259-270 | a run published before any worker started is live, not in the snapshot, listed as an orphan, and then handed to the first worker |
| `TaskQueue.NotInConcat` | src/app/run/reaper.py:106 | the orphans of two lists put together are those of the first and then those of the second, so their order is that of the list |
| `TaskQueue.TaskStream.Orphaned` | src/app/run/reaper.py:78-106 | the loop lists, in order, the unfinished runs that are not in the snapshot, which is exact as the two rows above state |
| `EventId.ParseOfShow` | src/app/run/log.py:271-289 | parsing an id's text gives the id back |
| `EventId.ParseIff` | src/app/run/log.py:271-289 | a cursor is accepted if and only if it is two runs of digits with one hyphen between them, and then as those numbers |
| `EventId.UnpackOfPackIff` | src/app/run/archive.py:43-61 | unpacking inverts packing if and only if the sequence number is below 2^20 |
| `EventId.PackOfUnpack` | src/app/run/archive.py:43-61 | packing inverts unpacking for every key |
| `EventId.PackPreservesOrder` | src/app/run/archive.py:34-56 | for sequence numbers below 2^20, key order is id order |
| `EventId.PackFitsBigint` | src/app/run/archive.py:34-56 | a key is below 2^63 if and only if its milliseconds are below 2^43 |
| `EventId.PackCollides` | src/app/run/archive.py:43-56 | two different ids with the same key, one with a sequence number of 2^20 |
| `EventLog.ReadIsLogIff` | src/app/run/log.py:158-180 | for any cursor, stream plus archive read as the log past it at some instant between the two halves, in order, without gap or duplicate, if and only if packing the cursor brings in no event from before it and every event past it that was not returned is newer than the stream's answer and than every row fetched; trimming, expiry, appends and purges may come between the halves |
| `EventLog.FittingCursorReads` | src/app/run/archive.py:117-140 | a cursor that fits the key is not moved: then only a missing row can spoil a read, and none does while everything past the cursor is archived |
| `EventLog.AppendAwaitingRowIsSkipped` | src/app/run/log.py:137-180 | a run in which an event between its stream entry and its row is skipped by a read that returns the next one |
| `EventLog.ReadAfterAnyRun` | src/app/run/archive.py:117-140 | after any run of appends, inserts, expiries and purges, while every event is archived, a read at rest is the log past the cursor if and only if packing moves the cursor across no event that the stream did not return |
| `EventLog.WideCursorSkips` | src/app/run/archive.py:117-140 | a cursor with a sequence number of 2^20 that makes the archive skip an event |
| `EventLog.RunsEvolve` | src/app/run/log.py:125-156 | over any run of commands, the retention purge included, the log only grows, what the stream has dropped does not come back, and every row is that of an appended event |
| `EventLog.StreamIsLatest` | src/app/run/log.py:125-140 | while the key lives, the stream holds exactly the last n events appended, n being the configured length |
| `Subscription.ResumeWithoutLoss` | src/app/run/log.py:182-227 | of two subscriptions that skip nothing, the second from the id of any non-terminal entry of the first: what the first had yielded by then and what the second yields are together the log past the first start, up to a terminal event |
| `EventFollow.Service.Append` | src/app/run/log.py:125-156 | the event is appended to stream and log under a new id, the stream trimmed to the configured length; with the database up its row is stored |
| `EventFollow.Service.Read` | src/app/run/log.py:158-180 | the two reads with any commands in between; the result is a stretch of the log under exactly the condition above, and then reaches to the last event fetched |
| `Subscription.EndedIff` | src/app/run/log.py:229-256 | the check closes a subscription if and only if the newest event that can be seen is terminal and not past the cursor: with entries in the stream the newest of the log, else the newest archived one; with nothing to see, if and only if the row is terminal |
| `Subscription.EndedMeans` | src/app/run/log.py:229-256 | when a subscription is closed an event past its cursor is in neither tier, so none is left if the stream had entries |
| `Subscription.ResumedAtEnd` | src/app/run/log.py:200-214 | a client that resumes at the last, terminal event while either tier still has it, nobody appending, gets nothing more and is closed at the first turn |
| `EventFollow.Service.Follow` | src/app/run/log.py:182-227 | what is yielded is the first read and each blocking read past the cursor, up to a terminal event; it is done exactly when a terminal event was yielded or the closing check said so, and then no visible event is left past the cursor; it is a stretch of the log past the start, up to and including the first terminal event, if and only if no read skipped anything |
| `Subscription.FollowIsLog` | src/app/run/log.py:182-227 | over any sequence of turns in which no read skips anything, the output is the log as far as it was read, past the start, up to the first terminal event |
| `Subscription.FollowIsLogIff` | src/app/run/log.py:182-227 | over any sequence of turns, the output is what some stretch of the log past the start, at least as long as the log was at the beginning, shows up to its first terminal event, if and only if the first read was exact up to a terminal event and each blocking read returned nothing or all there was past the cursor |
| `Replay.Collapse` | src/app/run/replay.py:22-39 | the loop computes Collapsed, whose meaning the next rows state |
| `Replay.CollapsePreservesMeaning` | src/app/run/replay.py:22-57 | the text, tagged by kind and path, and every other event are unchanged and in order |
| `Replay.CollapseJoinsStretches` | src/app/run/replay.py:22-57 | the history divides into maximal uniform stretches; for every such division they are nonempty, concatenate to the history, and the result is each of them joined into one event with the last one's id |
| `Replay.CollapseIsCompact` | src/app/run/replay.py:22-48 | no two neighbours of the result could still merge |
| `Replay.CollapseIsIdempotent` | src/app/run/replay.py:22-39 | compacting twice is compacting once |
| `Replay.CollapseIncrementally` | src/app/run/replay.py:22-39 | compacting a compacted prefix with more events equals compacting everything |
| `Replay.CollapseKeepsCursors` | src/app/run/replay.py:51-57 | ids are a subsequence of the history's, ending in its last |
| `SkillAlign.DesiredFiles` | src/app/broker/skill.py:130-146 | the loop collects the files of all references, or the first error |
| `SkillAlign.DesiredOkIff` | src/app/broker/skill.py:130-152 | references are accepted if and only if each names an existing version with usable names and no name repeats |
| `SkillAlign.DesiredBlames` | src/app/broker/skill.py:130-152 | the error is that of the first reference the list is refused for, and says what is wrong with it |
| `SkillAlign.ComponentIff` | src/app/broker/skill.py:180-183 | a name is accepted if and only if, cut at the separators of either convention, it is one part, and that part is not empty and no dot name |
| `SkillAlign.DesiredIff` | src/app/broker/skill.py:141-146 | the desired files are exactly the regular files of the versions, each under its skill's name |
| `SkillAlign.DesiredPrefixFree` | src/app/broker/skill.py:130-146 | no desired file is also a parent directory of one |
| `SkillAlign.Workspace.Align` | src/app/broker/skill.py:82-128 | a bad reference changes nothing; otherwise the tree becomes the desired files and their parents but for irremovable special files, and the call gets to its end exactly when none of those stands where a directory must go or is a socket or an unread FIFO where a file must go; an aligned tree is left untouched |
| `SkillAlign.Workspace.Prune` | src/app/broker/skill.py:100-112 | bottom up, exactly the entries that belong, under ancestors that belong, survive |
| `SkillAlign.Workspace.WriteFiles` | src/app/broker/skill.py:119-128 | every desired file not at a special file ends with the source content; files already right are not rewritten; a socket raises, an unread FIFO never returns, a device or a read FIFO swallows the content |
| `SkillAlign.AlignedExactIff` | src/app/broker/skill.py:210-214 | the result is exactly the target if and only if no special file has only wanted directories above it |
| `SkillAlign.AlignedIsSettledIff` | src/app/broker/skill.py:82-128 | after an align a second one has nothing to remove, create or write if and only if no special file stands where a file must go |
| `Outbox.OutboxRuns` | src/app/memory/job.py:155-254 | under any interleaving at most one terminal write, attempts equals claims, claims are at most the limit plus the stale sweeps that hit |
| `Outbox.ClaimsWithoutSweeps` | src/app/memory/worker.py:157-238 | without stale sweeps a job is claimed at most the configured number of times |
| `Outbox.ErrorsUseUpAttempts` | src/app/memory/worker.py:234-237 | after n passes that all end in errors the job is queued with n attempts while n is below the limit, and failed with the limit's attempts from there on |
| `Outbox.SweepExceedsLimit` | src/app/memory/job.py:179-192 | a stale sweep leads to a claim beyond the limit |
| `Outbox.LimitHoldsIff` | src/app/memory/job.py:155-192 | over any run the claims are within the limit if and only if the retries and the stale sweeps that hit are together below it, or equal to it with the job still queued |
| `Outbox.TerminalIsFinal` | src/app/memory/job.py:306-337 | a finished job never changes again |
| `Outbox.WriteBackExactIff` | src/app/memory/worker.py:331-367 | a usage write-back keeps the ledger equal to the sum if and only if the counters still are what its read returned |
| `Outbox.OneWorkerLedgerIsExact` | src/app/memory/worker.py:331-367 | with one worker, across retries and crashes, recorded usage is the sum of all recorded calls |
| `Outbox.TwoWorkersLoseUsage` | src/app/memory/worker.py:331-367 | two workers on one job lose a call |
| `Outbox.JobTable.Claim` | src/app/memory/job.py:155-177 | the earliest queued job becomes running with one more attempt; none exactly when nothing is queued |
| `Outbox.JobTable.RequeueStale` | src/app/memory/job.py:179-192 | no stale running job is left, and the count is by how many the running jobs dropped |
| `Outbox.Worker.RunOnce` | src/app/memory/worker.py:157-238 | one pass claims the earliest queued job; if it still finds it running it completes or discards it, after an error puts it back exactly while attempts remain and else fails it for good with that message; otherwise it leaves it; the row is what the state machine's step makes of it; with nobody else at work it finds it as claimed and touches no other row |
| `Utf8.DecodeIffEncoding` | src/app/sandbox/browse.py:183-197 | bytes decode to a text if and only if they are its encoding |
| `Utf8.DecodeText` | src/app/sandbox/browse.py:183-197 | a NUL byte means binary; otherwise the loop drops as few trailing bytes as decoding needs |
| `Utf8.TruncatedDecode` | src/app/sandbox/browse.py:183-197 | well-formed text cut at any byte decodes to exactly its complete characters, dropping at most three bytes |
| `Utf8.DroppingIsPrefix` | src/app/sandbox/browse.py:183-197 | whatever the bytes, text that comes back encodes to a prefix of them |
| `Utf8.Preview` | src/app/sandbox/browse.py:130-148 | truncated exactly when longer than the limit; text is never taken for binary, and untruncated bytes decode exactly when well formed and free of NUL |

## Left out

- MemoryDir.MemoryDirectory.ReplaceFiles: the creation and removal of the memory directory itself, file times and modes, and symbolic links or wrong types in the place of artefacts; a missing directory is an empty one. A failing call has no effect, and a partly written staged file is an empty one.
- MemoryDir.MemoryDirectory.Recover: reordering of writes before an fsync; calls persist in program order.
- MemoryVersion.VersionIff: assumes a file name under 4 GiB and a file under 16 EiB, the widths of the two length prefixes; beyond them the code raises.
- MemoryRecord.ReadOfSerialize: strings with lone surrogates, which cannot be encoded, and the modification time.
- PoolState.Capacity: assumes adoption happens before any acquire, as the application does at start-up (src/app/broker/app.py:43).
- PoolState.NoContainerIsLost: assumes acquires of one thread do not overlap, as the broker's lock ensures (src/app/broker/route.py:616-625). A caller cancelled at other awaits of the pool than those of an acquire is not modelled.
- SandboxPool.SandboxPool.Drop: stopping a container and asking whether it is alive are taken not to raise; only starting may fail.
- TaskQueue.TaskStream.InFlight: no trimming of the task stream, no truncation by the count arguments of the range reads, and no loss of the server's data while a snapshot is taken; a server that lost its data before it is an empty queue without a group.
- Reaper.Sweeper.Sweep: an update that raises is taken not to have changed the row.
- EventFollow.Service.Append: a failed archive insert only loses the row, as the code allows; its retries are the caller's.
- EventFollow.Service.Follow: loops a given number of rounds instead of forever, since a subscription has no last round.
- EventId.ParseOfShow: `str.isdigit` also accepts digits such as a superscript two, on which `int` raises a plain ValueError; the model's digits are 0 to 9.
- EventLog.RunsEvolve: increasing ids after the stream key has expired rest on the server's clock, since Redis then forgets its last id.
- EventLog.ReadIsLogIff: a cursor whose packed key does not fit a bigint makes the query raise.
- Utf8.Preview: the line window and the size limits of the preview endpoint.
- SkillAlign.Workspace.Align: ownership changes and failing filesystem calls other than a special file in the way; a device takes whatever is written to it.
- Agent assembly, prompts, middleware and tool loading: thin layers over libraries that are not part of this model.
- HTTP clients and routes, Docker, XFS quota and cgroup arguments: plumbing and foreign calls.
- Admission rules, keyword scoring and model output parsing of the memory extractor: heuristics without a deep property.
- Completeness of XAUTOCLAIM in the task queue: depends on the server's scan limits.
- The lazily rebuilt index file outside a replacement, single-record reads and group, preset and user repositories: would only add easy members.
