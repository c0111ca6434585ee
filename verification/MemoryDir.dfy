/**
 * The crash-safe record directory (src/app/memory/store.py, _replace_files and _recover_transaction_artifacts).
 * Every filesystem step can be the last one before a crash, and every step can raise.
 */
module MemoryDir {
  import opened Common
  import opened Names
  import opened Utf8

  type Files = map<string, seq<Byte>>

  datatype Folder = Absent | Present(files: Files)

  /** `active` are the entries readers see; the other four are the transaction's artefacts. */
  datatype Dir = Dir(active: Files, stage: Folder, backup: Folder, promoting: bool, committed: bool)

  predicate Clean(d: Dir) {
    d.stage.Absent? && d.backup.Absent? && !d.promoting && !d.committed
  }

  function Holding(files: Files): Dir {
    Dir(files, Absent, Absent, false, false)
  }

  // ---- The filesystem steps ----

  datatype Op =
    | MakeStage
    | MakeBackup
    | Create(name: string)
    | Fill(name: string, content: seq<Byte>)
    | MoveToBackup(name: string)
    | MarkPromoting
    | Promote(name: string)
    | Commit
    | RemoveActive(name: string)
    | Restore(name: string)
    | DropStaged(name: string)
    | RemoveStage
    | DropSaved(name: string)
    | RemoveBackup
    | UnmarkPromoting
    | UnmarkCommitted

  /** The directory after a step, or None where the system call has nothing to act on. */
  function Do(d: Dir, op: Op): Option<Dir> {
    match op
    case MakeStage => if d.stage.Absent? then Some(d.(stage := Present(map[]))) else None
    case MakeBackup => if d.backup.Absent? then Some(d.(backup := Present(map[]))) else None
    case Create(n) =>
      if d.stage.Present? && n !in d.stage.files then Some(d.(stage := Present(d.stage.files[n := []]))) else None
    case Fill(n, content) =>
      if d.stage.Present? && n in d.stage.files then Some(d.(stage := Present(d.stage.files[n := content]))) else None
    case MoveToBackup(n) =>
      if n in d.active && d.backup.Present?
      then Some(d.(active := d.active - {n}, backup := Present(d.backup.files[n := d.active[n]]))) else None
    case MarkPromoting => if !d.promoting then Some(d.(promoting := true)) else None
    case Promote(n) =>
      if d.stage.Present? && n in d.stage.files
      then Some(d.(active := d.active[n := d.stage.files[n]], stage := Present(d.stage.files - {n}))) else None
    case Commit => if d.promoting then Some(d.(promoting := false, committed := true)) else None
    case RemoveActive(n) => if n in d.active then Some(d.(active := d.active - {n})) else None
    case Restore(n) =>
      if d.backup.Present? && n in d.backup.files
      then Some(d.(active := d.active[n := d.backup.files[n]], backup := Present(d.backup.files - {n}))) else None
    case DropStaged(n) =>
      if d.stage.Present? && n in d.stage.files then Some(d.(stage := Present(d.stage.files - {n}))) else None
    case RemoveStage => if d.stage == Present(map[]) then Some(d.(stage := Absent)) else None
    case DropSaved(n) =>
      if d.backup.Present? && n in d.backup.files then Some(d.(backup := Present(d.backup.files - {n}))) else None
    case RemoveBackup => if d.backup == Present(map[]) then Some(d.(backup := Absent)) else None
    case UnmarkPromoting => if d.promoting then Some(d.(promoting := false)) else None
    case UnmarkCommitted => if d.committed then Some(d.(committed := false)) else None
  }

  // ---- What recovery makes of a directory ----

  /** The entries a complete recovery leaves active. */
  function Outcome(d: Dir): Files {
    if d.committed || d.backup.Absent? then d.active
    else if d.promoting then d.backup.files
    else d.active + d.backup.files
  }

  /** The part of a file set under some names. */
  function Only(files: Files, names: set<string>): Files {
    map n | n in files && n in names :: files[n]
  }

  ghost predicate Part(a: Files, b: Files) {
    forall n :: n in a ==> n in b && a[n] == b[n]
  }

  /**
   * The states a recovery of d can be cut in: what it has done so far to each part. Restores start once the active
   * entries are gone (with the promoting mark) or on top of them (without it).
   */
  ghost predicate MidRecovery(d: Dir, c: Dir) {
    if d.committed then
      && c.active == d.active
      && (c.committed || Clean(c))
    else
      && !c.committed
      && (c.promoting ==> d.promoting)
      && (if d.backup.Absent? then c.backup.Absent? && c.active == d.active
          else
            var saved := d.backup.files;
            || (c.backup == d.backup && c.promoting == d.promoting
                && (if d.promoting then Part(c.active, d.active) else c.active == d.active))
            || (c.backup.Present? && Part(c.backup.files, saved) && c.promoting == d.promoting
                && c.active == (if d.promoting then map[] else d.active) + (saved - c.backup.files.Keys))
            || (c.backup.Absent? && c.active == (if d.promoting then map[] else d.active) + saved))
  }

  /** From the first restore under the promoting mark until the backup directory is gone. */
  predicate InWindow(d: Dir, c: Dir) {
    !d.committed && d.promoting && d.backup.Present? && c.backup.Present? && c.backup != d.backup
  }

  /** Cut a recovery anywhere: running it again ends in the same set exactly when the cut is outside the window. */
  lemma CutRecoveryIff(d: Dir, c: Dir)
    requires MidRecovery(d, c)
    ensures Outcome(c) == Outcome(d) <==> !InWindow(d, c)
  {}

  /** Any number of cut recoveries, each starting where the last was cut, converge to the same set. */
  lemma {:induction false} RestartedRecovery(cuts: seq<Dir>)
    requires cuts != []
    requires forall i :: 0 <= i < |cuts| - 1 ==> MidRecovery(cuts[i], cuts[i + 1]) && !InWindow(cuts[i], cuts[i + 1])
    ensures Outcome(cuts[|cuts| - 1]) == Outcome(cuts[0])
  {
    if |cuts| <= 1 {
    } else {
      var init := cuts[..|cuts| - 1];
      forall i | 0 <= i < |init| - 1 ensures MidRecovery(init[i], init[i + 1]) && !InWindow(init[i], init[i + 1]) {
        assert MidRecovery(cuts[i], cuts[i + 1]);
      }
      RestartedRecovery(init);
      assert MidRecovery(cuts[|cuts| - 2], cuts[|cuts| - 2 + 1]);
      CutRecoveryIff(cuts[|cuts| - 2], cuts[|cuts| - 1]);
    }
  }

  /** Inside the window a second recovery loses the entries already restored. */
  lemma WindowLosesRestored(files: Files, name: string)
    requires name in files
    ensures var d := Dir(map[], Present(map[]), Present(files), true, false);
            var c := Do(d, Restore(name)).value;
            && MidRecovery(d, c) && InWindow(d, c)
            && Outcome(d) == files && name !in Outcome(c)
  {}

  // ---- Recovery, step by step ----

  /** The active entries restores are laid on. */
  function Base(d: Dir): Files {
    if d.promoting then map[] else d.active
  }

  /** Recovery of d after restoring some of the saved names. */
  function Restored(d: Dir, done: set<string>): Dir
    requires d.backup.Present?
  {
    d.(active := Base(d) + Only(d.backup.files, done), backup := Present(d.backup.files - done))
  }

  lemma RestoreOne(d: Dir, done: set<string>, n: string)
    requires d.backup.Present? && n in d.backup.files && n !in done
    ensures Do(Restored(d, done), Restore(n)) == Some(Restored(d, done + {n}))
  {
    assert (Base(d) + Only(d.backup.files, done))[n := d.backup.files[n]] == Base(d) + Only(d.backup.files, done + {n});
    assert d.backup.files - done - {n} == d.backup.files - (done + {n});
  }

  lemma RestoredIsMid(d: Dir, done: set<string>)
    requires !d.committed && d.backup.Present?
    ensures MidRecovery(d, Restored(d, done))
  {}

  lemma RestoredNone(d: Dir)
    requires d.backup.Present?
    ensures Restored(d, {}) == d.(active := Base(d))
  {}

  lemma RestoredAll(d: Dir)
    requires !d.committed && d.backup.Present?
    ensures Restored(d, d.backup.files.Keys) == d.(active := Base(d) + d.backup.files, backup := Present(map[]))
    ensures MidRecovery(d, d.(active := Base(d) + d.backup.files, backup := Absent))
  {}

  lemma ClearedIsMid(d: Dir, left: Files)
    requires !d.committed && d.promoting && d.backup.Present? && Part(left, d.active)
    ensures MidRecovery(d, d.(active := left))
  {}

  lemma NextName(names: seq<string>, keys: set<string>, i: nat)
    requires Lists(names, keys) && i < |names|
    ensures names[i] in keys && names[i] !in Set(names[..i])
    ensures Set(names[..i + 1]) == Set(names[..i]) + {names[i]}
  {}

  lemma AllNames(names: seq<string>, keys: set<string>)
    requires Lists(names, keys)
    ensures Set(names[..0]) == {} && Set(names[..|names|]) == keys
  {}

  lemma WithoutMore(files: Files, done: set<string>, n: string)
    ensures files - done - {n} == files - (done + {n})
  {}

  lemma WithoutNone(files: Files)
    ensures files - {} == files && files - files.Keys == map[]
  {}

  /** d with some staged files unlinked. */
  function StageWithout(d: Dir, done: set<string>): Dir
    requires d.stage.Present?
  {
    d.(stage := Present(d.stage.files - done))
  }

  /** d with some saved files unlinked. */
  function BackupWithout(d: Dir, done: set<string>): Dir
    requires d.backup.Present?
  {
    d.(backup := Present(d.backup.files - done))
  }

  lemma StageDrained(d: Dir)
    requires d.stage.Present?
    ensures StageWithout(d, {}) == d
    ensures StageWithout(d, d.stage.files.Keys) == d.(stage := Present(map[]))
  {}

  lemma DropStagedOne(d: Dir, done: set<string>, n: string)
    requires d.stage.Present? && n in d.stage.files && n !in done
    ensures Do(StageWithout(d, done), DropStaged(n)) == Some(StageWithout(d, done + {n}))
  {
    WithoutMore(d.stage.files, done, n);
  }

  lemma BackupDrained(d: Dir)
    requires d.backup.Present?
    ensures BackupWithout(d, {}) == d
    ensures BackupWithout(d, d.backup.files.Keys) == d.(backup := Present(map[]))
  {}

  lemma DropSavedOne(d: Dir, done: set<string>, n: string)
    requires d.backup.Present? && n in d.backup.files && n !in done
    ensures Do(BackupWithout(d, done), DropSaved(n)) == Some(BackupWithout(d, done + {n}))
  {
    WithoutMore(d.backup.files, done, n);
  }

  // ---- Replacement, phase by phase ----

  /** Everything staged so far, the backup directory still empty or not yet made. */
  function Staging(files: Files, staged: Files, backup: Folder): Dir {
    Dir(files, Present(staged), backup, false, false)
  }

  /** Some active entries already renamed into the backup. */
  function Moving(files: Files, payload: Files, done: set<string>): Dir {
    Dir(files - done, Present(payload), Present(Only(files, done)), false, false)
  }

  /** All old entries saved, some new ones renamed into place. */
  function Promoting(files: Files, payload: Files, done: set<string>): Dir {
    Dir(Only(payload, done), Present(payload - done), Present(files), true, false)
  }

  /** Before the commit: a crash here recovers to these, the old, entries. */
  ghost function KeepsOld(files: Files): Dir -> bool {
    (c: Dir) => !c.committed && Outcome(c) == files
  }

  /** From the commit on: readers see these, the new, entries and a crash recovers to them. */
  ghost function KeepsNew(payload: Files): Dir -> bool {
    (c: Dir) => c.active == payload && Outcome(c) == payload
  }

  /** A rollback that has begun to restore under the promoting mark. */
  predicate RollbackWindow(files: Files, c: Dir) {
    c.promoting && c.backup.Present? && c.backup.files != files
  }

  /** While rolling back, a crash recovers to the old entries exactly outside the window. */
  ghost function RollsBack(files: Files): Dir -> bool {
    (c: Dir) => !c.committed && (Outcome(c) == files <==> !RollbackWindow(files, c))
  }

  lemma StagingRecovers(files: Files, staged: Files, backup: Folder)
    requires backup.Absent? || backup == Present(map[])
    ensures KeepsOld(files)(Staging(files, staged, backup))
  {}

  lemma MoveOne(files: Files, payload: Files, done: set<string>, n: string)
    requires n in files && n !in done
    ensures Do(Moving(files, payload, done), MoveToBackup(n)) == Some(Moving(files, payload, done + {n}))
  {
    assert files - done - {n} == files - (done + {n});
    assert Only(files, done)[n := files[n]] == Only(files, done + {n});
  }

  lemma MovingRecovers(files: Files, payload: Files, done: set<string>)
    ensures KeepsOld(files)(Moving(files, payload, done))
  {}

  lemma OnlyEnds(files: Files)
    ensures Only(files, {}) == map[] && Only(files, files.Keys) == files
  {}

  /** Creating and filling the next staged file. */
  lemma StageOne(files: Files, payload: Files, done: set<string>, n: string)
    requires n in payload && n !in done
    ensures var created := Staging(files, Only(payload, done)[n := []], Present(map[]));
            && Do(Staging(files, Only(payload, done), Present(map[])), Create(n)) == Some(created)
            && Do(created, Fill(n, payload[n])) == Some(Staging(files, Only(payload, done + {n}), Present(map[])))
  {
    assert Only(payload, done)[n := []][n := payload[n]] == Only(payload, done + {n});
  }

  lemma MoveEnds(files: Files, payload: Files)
    ensures Moving(files, payload, {}) == Staging(files, payload, Present(map[]))
    ensures Moving(files, payload, files.Keys).(promoting := true) == Promoting(files, payload, {})
    ensures KeepsOld(files)(Promoting(files, payload, {}))
  {
    WithoutNone(files);
    WithoutNone(payload);
    assert Only(files, {}) == map[] && Only(files, files.Keys) == files && Only(payload, {}) == map[];
  }

  lemma PromoteOne(files: Files, payload: Files, done: set<string>, n: string)
    requires n in payload && n !in done
    ensures Do(Promoting(files, payload, done), Promote(n)) == Some(Promoting(files, payload, done + {n}))
  {
    assert Only(payload, done)[n := payload[n]] == Only(payload, done + {n});
    assert payload - done - {n} == payload - (done + {n});
  }

  lemma PromoteEnds(files: Files, payload: Files)
    ensures Promoting(files, payload, payload.Keys) == Dir(payload, Present(map[]), Present(files), true, false)
  {}

  /** How far a replacement got before it raised: which names were moved out, which promoted in. */
  ghost predicate Interrupted(d: Dir, files: Files, payload: Files, moved: seq<string>, promoted: seq<string>) {
    && !d.committed
    && NamesOf(moved, files) && NamesOf(promoted, payload)
    && d.active == (files - Set(moved)) + Only(payload, Set(promoted))
    && (d.backup.Absent? ==> moved == [])
    && (d.backup.Present? ==> d.backup.files == Only(files, Set(moved)))
    && (promoted != [] ==> d.promoting)
    && (d.promoting ==> d.backup.Present? && Set(moved) == files.Keys)
  }

  lemma InterruptedEarly(d: Dir, files: Files, payload: Files)
    requires d.active == files && !d.committed && !d.promoting
    requires d.backup.Absent? || d.backup == Present(map[])
    ensures Interrupted(d, files, payload, [], [])
  {}

  /** Distinct names of these files. */
  ghost predicate NamesOf(names: seq<string>, files: Files) {
    Lists(names, Set(names)) && Set(names) <= files.Keys
  }

  lemma PrefixNames(names: seq<string>, files: Files, i: nat)
    requires Lists(names, files.Keys) && i <= |names|
    ensures NamesOf(names[..i], files)
  {}

  lemma InterruptedMoving(files: Files, payload: Files, moved: seq<string>)
    requires NamesOf(moved, files)
    ensures Interrupted(Moving(files, payload, Set(moved)), files, payload, moved, [])
  {}

  lemma InterruptedPromoting(files: Files, payload: Files, moved: seq<string>, promoted: seq<string>)
    requires Lists(moved, files.Keys) && NamesOf(promoted, payload)
    ensures Interrupted(Promoting(files, payload, Set(promoted)), files, payload, moved, promoted)
  {}

  /** The old entries are back; only artefacts are left to drop. */
  ghost predicate Settled(d: Dir, files: Files) {
    !d.committed && d.active == files && (d.backup.Absent? || d.backup == Present(map[]))
  }

  lemma SettledRollsBack(d: Dir, files: Files)
    requires Settled(d, files)
    ensures RollsBack(files)(d)
  {}

  lemma UnpromotingRollsBack(
    d: Dir, files: Files, payload: Files, moved: seq<string>, promoted: seq<string>, done: set<string>)
    requires Interrupted(d, files, payload, moved, promoted) && done <= Set(promoted)
    ensures RollsBack(files)(d.(active := d.active - done))
  {}

  lemma UnpromotedActive(d: Dir, files: Files, payload: Files, moved: seq<string>, promoted: seq<string>)
    requires Interrupted(d, files, payload, moved, promoted)
    ensures Set(promoted) <= d.active.Keys
    ensures d.active - Set(promoted) == files - Set(moved)
  {}

  lemma RestoringRollsBack(d: Dir, files: Files, moved: set<string>, done: set<string>)
    requires !d.committed && d.active == files - moved && d.backup == Present(Only(files, moved))
    requires d.promoting ==> moved == files.Keys
    ensures RollsBack(files)(Restored(d, done))
  {}

  lemma RestoringEnds(d: Dir, files: Files, moved: set<string>)
    requires !d.committed && d.active == files - moved && d.backup == Present(Only(files, moved)) && moved <= files.Keys
    requires d.promoting ==> moved == files.Keys
    ensures d.active == Base(d) && d.backup.files.Keys == moved
    ensures Settled(Restored(d, moved), files)
  {}

  /** How a replacement ends for its caller: done, the fault re-raised, or a fault in the handler itself. */
  datatype Result = Replaced | Raised | Broken

  /** The state right after the promoting mark is renamed to the committed mark. */
  predicate Committed(d: Dir, files: Files, payload: Files) {
    d == Dir(payload, Present(map[]), Present(files), false, true)
  }

  class MemoryDirectory {
    var dir: Dir
    /** Every state the directory has been in, one per completed step. */
    ghost var trace: seq<Dir>
    /** How many system calls have raised. */
    ghost var faults: nat

    constructor (files: Files)
      ensures dir == Holding(files) && trace == [] && faults == 0
    {
      dir, trace, faults := Holding(files), [], 0;
    }

    /** P holds of every state since `from`: wherever a crash cuts, P holds of what is on disk. */
    ghost predicate Since(from: nat, P: Dir -> bool)
      reads this
    {
      from <= |trace| && forall i :: from <= i < |trace| ==> P(trace[i])
    }

    /** One system call; it may raise, and then has no effect. */
    method Step(op: Op, ghost from: nat, ghost P: Dir -> bool) returns (ok: bool)
      requires Do(dir, op).Some? && Since(from, P) && P(Do(dir, op).value)
      modifies this
      ensures Since(from, P)
      ensures dir == if ok then Do(old(dir), op).value else old(dir)
      ensures trace == if ok then old(trace) + [dir] else old(trace)
      ensures faults == old(faults) + if ok then 0 else 1
    {
      ok := *;
      if ok {
        dir := Do(dir, op).value;
        trace := trace + [dir];
      } else {
        faults := faults + 1;
      }
    }

    /** fsync of a directory: no visible effect, may raise. */
    method Sync() returns (ok: bool)
      modifies this`faults
      ensures faults == old(faults) + if ok then 0 else 1
    {
      ok := *;
      if !ok {
        faults := faults + 1;
      }
    }

    /** Unlink the staged files one by one. */
    method EmptyStage(ghost from: nat, ghost P: Dir -> bool) returns (ok: bool)
      requires dir.stage.Present?
      requires Since(from, P) && forall done :: P(StageWithout(dir, done))
      modifies this
      ensures Since(from, P) && old(trace) <= trace
      ensures faults == old(faults) + if ok then 0 else 1
      ensures dir == old(dir).(stage := if ok then Present(map[]) else dir.stage)
    {
      ok := true;
      ghost var keys := dir.stage.files.Keys;
      var names := Sorted(dir.stage.files.Keys);
      AllNames(names, keys);
      StageDrained(dir);
      var i := 0;
      while i < |names|
        invariant 0 <= i <= |names|
        invariant ok && faults == old(faults) && Since(from, P) && old(trace) <= trace
        invariant dir == StageWithout(old(dir), Set(names[..i]))
      {
        NextName(names, keys, i);
        DropStagedOne(old(dir), Set(names[..i]), names[i]);
        ok := Step(DropStaged(names[i]), from, P);
        if !ok {
          return;
        }
        i := i + 1;
      }
    }

    /** rmtree of the staging directory. */
    method RemoveStageTree(ghost from: nat, ghost P: Dir -> bool) returns (ok: bool)
      requires Since(from, P) && P(dir.(stage := Absent))
      requires dir.stage.Present? ==> forall done :: P(StageWithout(dir, done))
      modifies this
      ensures Since(from, P) && old(trace) <= trace
      ensures faults == old(faults) + if ok then 0 else 1
      ensures dir == old(dir).(stage := if ok then Absent else dir.stage)
    {
      ok := true;
      if dir.stage.Present? {
        ok := EmptyStage(from, P);
        if ok {
          ok := Step(RemoveStage, from, P);
        }
      }
    }

    /** Unlink the saved files one by one. */
    method EmptyBackup(ghost from: nat, ghost P: Dir -> bool) returns (ok: bool)
      requires dir.backup.Present?
      requires Since(from, P) && forall done :: P(BackupWithout(dir, done))
      modifies this
      ensures Since(from, P) && old(trace) <= trace
      ensures faults == old(faults) + if ok then 0 else 1
      ensures dir == old(dir).(backup := if ok then Present(map[]) else dir.backup)
    {
      ok := true;
      ghost var keys := dir.backup.files.Keys;
      var names := Sorted(dir.backup.files.Keys);
      AllNames(names, keys);
      BackupDrained(dir);
      var i := 0;
      while i < |names|
        invariant 0 <= i <= |names|
        invariant ok && faults == old(faults) && Since(from, P) && old(trace) <= trace
        invariant dir == BackupWithout(old(dir), Set(names[..i]))
      {
        NextName(names, keys, i);
        DropSavedOne(old(dir), Set(names[..i]), names[i]);
        ok := Step(DropSaved(names[i]), from, P);
        if !ok {
          return;
        }
        i := i + 1;
      }
    }

    /** rmtree of the backup directory. */
    method RemoveBackupTree(ghost from: nat, ghost P: Dir -> bool) returns (ok: bool)
      requires Since(from, P) && P(dir.(backup := Absent))
      requires dir.backup.Present? ==> forall done :: P(BackupWithout(dir, done))
      modifies this
      ensures Since(from, P) && old(trace) <= trace
      ensures faults == old(faults) + if ok then 0 else 1
      ensures dir == old(dir).(backup := if ok then Absent else dir.backup)
    {
      ok := true;
      if dir.backup.Present? {
        ok := EmptyBackup(from, P);
        if ok {
          ok := Step(RemoveBackup, from, P);
        }
      }
    }

    /** Remove some active entries. */
    method RemoveEntries(names: seq<string>, ghost from: nat, ghost P: Dir -> bool) returns (ok: bool)
      requires Lists(names, Set(names)) && Set(names) <= dir.active.Keys
      requires Since(from, P) && forall done :: done <= Set(names) ==> P(dir.(active := dir.active - done))
      modifies this
      ensures Since(from, P) && old(trace) <= trace
      ensures faults == old(faults) + if ok then 0 else 1
      ensures ok ==> dir == old(dir).(active := old(dir).active - Set(names))
    {
      ok := true;
      ghost var files := dir.active;
      AllNames(names, Set(names));
      WithoutNone(files);
      var i := 0;
      while i < |names|
        invariant 0 <= i <= |names|
        invariant ok && faults == old(faults) && Since(from, P) && old(trace) <= trace
        invariant dir == old(dir).(active := files - Set(names[..i]))
      {
        NextName(names, Set(names), i);
        WithoutMore(files, Set(names[..i]), names[i]);
        ok := Step(RemoveActive(names[i]), from, P);
        if !ok {
          return;
        }
        i := i + 1;
      }
    }

    /** Rename every saved entry back on top of the base. */
    method RestoreEntries(names: seq<string>, ghost d: Dir, ghost from: nat, ghost P: Dir -> bool) returns (ok: bool)
      requires d.backup.Present? && dir == d.(active := Base(d)) && Lists(names, d.backup.files.Keys)
      requires Since(from, P) && forall done :: P(Restored(d, done))
      modifies this
      ensures Since(from, P) && old(trace) <= trace
      ensures faults == old(faults) + if ok then 0 else 1
      ensures ok ==> dir == Restored(d, d.backup.files.Keys)
    {
      ok := true;
      AllNames(names, d.backup.files.Keys);
      RestoredNone(d);
      var i := 0;
      while i < |names|
        invariant 0 <= i <= |names|
        invariant ok && faults == old(faults) && Since(from, P) && old(trace) <= trace
        invariant dir == Restored(d, Set(names[..i]))
      {
        NextName(names, d.backup.files.Keys, i);
        RestoreOne(d, Set(names[..i]), names[i]);
        ok := Step(Restore(names[i]), from, P);
        if !ok {
          return;
        }
        i := i + 1;
      }
    }

    /** The committed mark is there: keep the new entries, finish the clean-up, drop the mark last. */
    method RecoverCommitted(ghost from: nat, ghost d: Dir) returns (ok: bool)
      requires dir == d && d.committed && Since(from, c => MidRecovery(d, c))
      modifies this
      ensures Since(from, c => MidRecovery(d, c)) && old(trace) <= trace
      ensures faults == old(faults) + if ok then 0 else 1
      ensures ok ==> dir == Holding(d.active)
    {
      ghost var P := (c: Dir) => MidRecovery(d, c);
      ok := RemoveBackupTree(from, P);
      if ok {
        ok := RemoveStageTree(from, P);
      }
      if ok && dir.promoting {
        ok := Step(UnmarkPromoting, from, P);
      }
      if ok {
        ok := Step(UnmarkCommitted, from, P);
      }
    }

    /** No committed mark, a backup: put the saved entries back, on an emptied directory if promotion had begun. */
    method RecoverBackup(ghost from: nat, ghost d: Dir) returns (ok: bool)
      requires dir == d && !d.committed && d.backup.Present? && Since(from, c => MidRecovery(d, c))
      modifies this
      ensures Since(from, c => MidRecovery(d, c)) && old(trace) <= trace
      ensures faults == old(faults) + if ok then 0 else 1
      ensures ok ==> dir == d.(active := Base(d) + d.backup.files, backup := Absent)
    {
      ghost var P := (c: Dir) => MidRecovery(d, c);
      ok := true;
      if dir.promoting {
        var names := Sorted(dir.active.Keys);
        assert Set(names) == d.active.Keys;
        forall done ensures P(d.(active := d.active - done)) {
          ClearedIsMid(d, d.active - done);
        }
        ok := RemoveEntries(names, from, P);
        WithoutNone(d.active);
      }
      if ok {
        var names := Sorted(dir.backup.files.Keys);
        forall done ensures P(Restored(d, done)) {
          RestoredIsMid(d, done);
        }
        ok := RestoreEntries(names, d, from, P);
      }
      if ok {
        RestoredAll(d);
        ok := Step(RemoveBackup, from, P);
      }
    }

    /**
     * _recover_transaction_artifacts. Whatever the directory holds, a recovery that runs to its end leaves exactly
     * Outcome and no artefact; cut or failing anywhere, it leaves one of the MidRecovery states.
     */
    method Recover() returns (ok: bool)
      modifies this
      ensures Since(|old(trace)|, c => MidRecovery(old(dir), c)) && old(trace) <= trace
      ensures faults == old(faults) + if ok then 0 else 1
      ensures ok ==> dir == Holding(Outcome(old(dir)))
    {
      ghost var d := dir;
      ghost var from := |trace|;
      ghost var P := (c: Dir) => MidRecovery(d, c);
      if dir.committed {
        ok := RecoverCommitted(from, d);
      } else {
        ok := true;
        if dir.backup.Present? {
          ok := RecoverBackup(from, d);
        }
        if ok {
          ok := RemoveStageTree(from, P);
        }
        if ok && dir.promoting {
          ok := Step(UnmarkPromoting, from, P);
        }
      }
      if ok {
        ok := Sync();
      }
    }

    /** Write the new set into the staging directory, one file at a time in a given order, content after creation. */
    method StageAll(order: seq<string>, payload: Files, ghost from: nat) returns (ok: bool)
      requires Lists(order, payload.Keys) && Clean(dir) && Since(from, KeepsOld(dir.active))
      modifies this
      ensures Since(from, KeepsOld(old(dir).active)) && old(trace) <= trace
      ensures faults == old(faults) + if ok then 0 else 1
      ensures ok ==> dir == Staging(old(dir).active, payload, Present(map[]))
      ensures dir.active == old(dir).active && !dir.committed && !dir.promoting
      ensures dir.backup.Absent? || dir.backup == Present(map[])
    {
      ghost var files := dir.active;
      ghost var P := KeepsOld(files);
      StagingRecovers(files, map[], Absent);
      ok := Step(MakeStage, from, P);
      if !ok {
        return;
      }
      forall staged ensures P(Staging(files, staged, Present(map[]))) {
        StagingRecovers(files, staged, Present(map[]));
      }
      ok := Step(MakeBackup, from, P);
      if !ok {
        return;
      }
      ok := StageFiles(order, payload, files, from, P);
    }

    method StageFiles(names: seq<string>, payload: Files, ghost files: Files, ghost from: nat, ghost P: Dir -> bool)
      returns (ok: bool)
      requires Lists(names, payload.Keys)
      requires dir == Staging(files, map[], Present(map[])) && Since(from, P)
      requires forall staged :: P(Staging(files, staged, Present(map[])))
      modifies this
      ensures Since(from, P) && old(trace) <= trace
      ensures faults == old(faults) + if ok then 0 else 1
      ensures dir.stage.Present? && dir == Staging(files, if ok then payload else dir.stage.files, Present(map[]))
    {
      ok := true;
      AllNames(names, payload.Keys);
      OnlyEnds(payload);
      var i := 0;
      while i < |names|
        invariant 0 <= i <= |names|
        invariant ok && faults == old(faults) && Since(from, P) && old(trace) <= trace
        invariant dir == Staging(files, Only(payload, Set(names[..i])), Present(map[]))
      {
        NextName(names, payload.Keys, i);
        ok := StageFile(names[i], payload, files, Set(names[..i]), from, P);
        if !ok {
          return;
        }
        i := i + 1;
      }
    }

    method StageFile(
      n: string, payload: Files, ghost files: Files, ghost done: set<string>, ghost from: nat, ghost P: Dir -> bool)
      returns (ok: bool)
      requires n in payload && n !in done
      requires dir == Staging(files, Only(payload, done), Present(map[])) && Since(from, P)
      requires forall staged :: P(Staging(files, staged, Present(map[])))
      modifies this
      ensures Since(from, P) && old(trace) <= trace
      ensures faults == old(faults) + if ok then 0 else 1
      ensures dir.stage.Present? && dir == Staging(files, dir.stage.files, Present(map[]))
      ensures ok ==> dir.stage.files == Only(payload, done + {n})
    {
      StageOne(files, payload, done, n);
      ok := Step(Create(n), from, P);
      if ok {
        ok := Step(Fill(n, payload[n]), from, P);
      }
    }

    /** Rename the active entries into the backup. */
    method MoveAll(ghost files: Files, ghost payload: Files, ghost from: nat, ghost P: Dir -> bool)
      returns (ok: bool, moved: seq<string>)
      requires dir == Moving(files, payload, {}) && dir.active == files && Since(from, P)
      requires forall done :: P(Moving(files, payload, done))
      modifies this
      ensures Since(from, P) && old(trace) <= trace
      ensures faults == old(faults) + if ok then 0 else 1
      ensures NamesOf(moved, files) && dir == Moving(files, payload, Set(moved))
      ensures ok ==> Lists(moved, files.Keys)
    {
      ok := true;
      var names := Sorted(dir.active.Keys);
      AllNames(names, files.Keys);
      var i := 0;
      while i < |names|
        invariant 0 <= i <= |names|
        invariant ok && faults == old(faults) && Since(from, P) && old(trace) <= trace
        invariant dir == Moving(files, payload, Set(names[..i]))
      {
        NextName(names, files.Keys, i);
        MoveOne(files, payload, Set(names[..i]), names[i]);
        ok := Step(MoveToBackup(names[i]), from, P);
        if !ok {
          break;
        }
        i := i + 1;
      }
      moved := names[..i];
      PrefixNames(names, files, i);
      if ok {
        assert moved == names;
      }
    }

    /** Rename the staged files into place. */
    method PromoteAll(ghost files: Files, ghost payload: Files, ghost from: nat, ghost P: Dir -> bool)
      returns (ok: bool, promoted: seq<string>)
      requires dir == Promoting(files, payload, {}) && dir.stage.files == payload && Since(from, P)
      requires forall done :: P(Promoting(files, payload, done))
      modifies this
      ensures Since(from, P) && old(trace) <= trace
      ensures faults == old(faults) + if ok then 0 else 1
      ensures NamesOf(promoted, payload) && dir == Promoting(files, payload, Set(promoted))
      ensures ok ==> Lists(promoted, payload.Keys)
    {
      ok := true;
      var names := Sorted(dir.stage.files.Keys);
      AllNames(names, payload.Keys);
      var i := 0;
      while i < |names|
        invariant 0 <= i <= |names|
        invariant ok && faults == old(faults) && Since(from, P) && old(trace) <= trace
        invariant dir == Promoting(files, payload, Set(names[..i]))
      {
        NextName(names, payload.Keys, i);
        PromoteOne(files, payload, Set(names[..i]), names[i]);
        ok := Step(Promote(names[i]), from, P);
        if !ok {
          break;
        }
        i := i + 1;
      }
      promoted := names[..i];
      PrefixNames(names, payload, i);
      if ok {
        assert promoted == names;
      }
    }

    /** Up to the promoting mark: stage everything, then move the old entries out. */
    method Prepare(order: seq<string>, payload: Files, ghost files: Files, ghost from: nat)
      returns (ok: bool, moved: seq<string>)
      requires Lists(order, payload.Keys) && dir == Holding(files) && Since(from, KeepsOld(files))
      modifies this
      ensures Since(from, KeepsOld(files)) && old(trace) <= trace
      ensures faults == old(faults) + if ok then 0 else 1
      ensures ok ==> dir == Promoting(files, payload, {}) && Lists(moved, files.Keys)
      ensures Interrupted(dir, files, payload, moved, [])
    {
      moved := [];
      ok := StageAll(order, payload, from);
      if ok {
        ok := Sync();
      }
      if ok {
        ok := Sync();
      }
      if !ok {
        InterruptedEarly(dir, files, payload);
        return;
      }
      ok, moved := MoveOut(payload, files, from);
    }

    method MoveOut(payload: Files, ghost files: Files, ghost from: nat) returns (ok: bool, moved: seq<string>)
      requires dir == Staging(files, payload, Present(map[])) && Since(from, KeepsOld(files))
      modifies this
      ensures Since(from, KeepsOld(files)) && old(trace) <= trace
      ensures faults == old(faults) + if ok then 0 else 1
      ensures ok ==> dir == Promoting(files, payload, {}) && Lists(moved, files.Keys)
      ensures Interrupted(dir, files, payload, moved, [])
    {
      ghost var P := KeepsOld(files);
      MoveEnds(files, payload);
      forall done ensures P(Moving(files, payload, done)) {
        MovingRecovers(files, payload, done);
      }
      ok, moved := MoveAll(files, payload, from, P);
      InterruptedMoving(files, payload, moved);
      if ok {
        assert Set(moved) == files.Keys;
        ok := Step(MarkPromoting, from, P);
        if ok {
          InterruptedPromoting(files, payload, moved, []);
          assert Set<string>([]) == {};
          ok := Sync();
        }
      }
    }

    /** The commit phase, up to and including the rename of the mark. */
    method CommitPhase(order: seq<string>, payload: Files, ghost files: Files)
      returns (moved: seq<string>, promoted: seq<string>)
      requires Lists(order, payload.Keys) && dir == Holding(files)
      modifies this
      ensures old(trace) <= trace && faults == old(faults) + if dir.committed then 0 else 1
      ensures !dir.committed ==>
                Since(|old(trace)|, KeepsOld(files)) && Interrupted(dir, files, payload, moved, promoted)
      ensures dir.committed ==>
                && dir == Dir(payload, Present(map[]), Present(files), false, true)
                && |old(trace)| < |trace| && trace[|trace| - 1] == dir
                && forall i :: |old(trace)| <= i < |trace| - 1 ==> KeepsOld(files)(trace[i])
    {
      ghost var from := |trace|;
      ghost var P := KeepsOld(files);
      promoted := [];
      var ok;
      ok, moved := Prepare(order, payload, files, from);
      if ok {
        ok, promoted := PromoteAll(files, payload, from, P);
        InterruptedPromoting(files, payload, moved, promoted);
        if ok {
          PromoteEnds(files, payload);
          assert Set(promoted) == payload.Keys;
          ok := Step(Commit, |trace|, _ => true);
        }
      }
    }

    /** The handler: undo what was promoted and moved, then drop the artefacts. */
    method Rollback(
      ghost files: Files, ghost payload: Files, moved: seq<string>, promoted: seq<string>, ghost from: nat)
      returns (ok: bool)
      requires Interrupted(dir, files, payload, moved, promoted) && Since(from, RollsBack(files))
      modifies this
      ensures Since(from, RollsBack(files)) && old(trace) <= trace
      ensures faults == old(faults) + if ok then 0 else 1
      ensures ok ==> dir == Holding(files)
    {
      ok := PutBack(files, payload, moved, promoted, from);
      if ok {
        ok := DropArtefacts(files, from);
      }
      if ok {
        ok := Sync();
      }
    }

    method PutBack(ghost files: Files, ghost payload: Files, moved: seq<string>, promoted: seq<string>, ghost from: nat)
      returns (ok: bool)
      requires Interrupted(dir, files, payload, moved, promoted) && Since(from, RollsBack(files))
      modifies this
      ensures Since(from, RollsBack(files)) && old(trace) <= trace
      ensures faults == old(faults) + if ok then 0 else 1
      ensures ok ==> Settled(dir, files)
    {
      ghost var P := RollsBack(files);
      forall done | done <= Set(promoted) ensures P(dir.(active := dir.active - done)) {
        UnpromotingRollsBack(dir, files, payload, moved, promoted, done);
      }
      UnpromotedActive(dir, files, payload, moved, promoted);
      ok := RemoveEntries(promoted, from, P);
      if ok && dir.backup.Present? {
        ghost var d := dir;
        forall done ensures P(Restored(d, done)) {
          RestoringRollsBack(d, files, Set(moved), done);
        }
        RestoringEnds(d, files, Set(moved));
        ok := RestoreEntries(moved, d, from, P);
      }
    }

    method DropArtefacts(ghost files: Files, ghost from: nat) returns (ok: bool)
      requires Settled(dir, files) && Since(from, RollsBack(files))
      modifies this
      ensures Since(from, RollsBack(files)) && old(trace) <= trace
      ensures faults == old(faults) + if ok then 0 else 1
      ensures ok ==> dir == Holding(files)
    {
      ghost var P := RollsBack(files);
      forall c | Settled(c, files) ensures P(c) {
        SettledRollsBack(c, files);
      }
      ok := RemoveStageTree(from, P);
      if ok {
        if dir.backup.Present? {
          assert forall done :: BackupWithout(dir, done) == dir;
        }
        ok := RemoveBackupTree(from, P);
      }
      if ok && dir.promoting {
        ok := Step(UnmarkPromoting, from, P);
      }
    }

    /** After the commit: clean up, the committed mark last. A fault here is swallowed. */
    method CleanUp(ghost payload: Files, ghost from: nat)
      requires dir.active == payload && dir.committed && !dir.promoting && Since(from, KeepsNew(payload))
      modifies this
      ensures Since(from, KeepsNew(payload)) && old(trace) <= trace
      ensures faults >= old(faults) && (faults == old(faults) ==> dir == Holding(payload))
      ensures dir == Holding(payload) || (dir.active == payload && dir.committed)
    {
      ghost var P := KeepsNew(payload);
      var ok := RemoveBackupTree(from, P);
      if ok {
        ok := RemoveStageTree(from, P);
      }
      if ok {
        ok := Step(UnmarkCommitted, from, P);
      }
      if ok {
        ok := Sync();
      }
    }

    /**
     * _replace_files with faults and crashes anywhere. The trace has up to three stretches: the commit phase (a crash
     * recovers to the old entries), the handler (likewise, outside the window), and everything from the rename of
     * the promoting mark on (a crash recovers to the new entries).
     */
    method ReplaceFiles(order: seq<string>, payload: Files)
      returns (result: Result, ghost handler: nat, ghost cut: nat)
      requires Lists(order, payload.Keys)
      modifies this
      ensures old(trace) <= trace && |old(trace)| <= handler <= cut <= |trace|
      ensures forall i :: |old(trace)| <= i < handler ==> KeepsOld(old(dir).active)(trace[i])
      ensures forall i :: handler <= i < cut ==> RollsBack(old(dir).active)(trace[i])
      ensures forall i :: cut <= i < |trace| ==> KeepsNew(payload)(trace[i])
      ensures result == Replaced ==> handler == cut < |trace| && Committed(trace[cut], old(dir).active, payload)
      ensures result != Replaced ==> cut == |trace|
      ensures !Clean(old(dir)) ==> result == Raised && trace == old(trace) && faults == old(faults)
      ensures result == Raised ==> dir == old(dir)
      ensures result == Replaced ==> dir == Holding(payload) || (dir.active == payload && dir.committed)
      ensures Clean(old(dir)) ==>
                match result
                case Replaced => faults >= old(faults) && (faults == old(faults) ==> dir == Holding(payload))
                case Raised => faults == old(faults) + 1
                case Broken => faults == old(faults) + 2
    {
      ghost var start := trace;
      handler, cut := |trace|, |trace|;
      if !Clean(dir) {
        return Raised, handler, cut;
      }
      ghost var files := dir.active;
      var moved, promoted := CommitPhase(order, payload, files);
      if dir.committed {
        handler, cut := |trace| - 1, |trace| - 1;
        // The last fsync of the commit phase: its fault is only logged.
        var _ := Sync();
        CleanUp(payload, cut);
        result := Replaced;
      } else {
        handler := |trace|;
        var ok := Rollback(files, payload, moved, promoted, handler);
        cut := |trace|;
        result := if ok then Raised else Broken;
      }
    }
  }
}
