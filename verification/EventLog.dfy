/**
 * The two-tier event log (src/app/run/log.py, src/app/run/archive.py): a stream that is trimmed and expires,
 * an archive keyed by packed ids, and the one append-only log that readers are promised.
 */
module EventLog {
  import opened Common
  import opened EventId

  datatype Event = Event(terminal: bool, body: string)

  datatype Entry = Entry(id: Id, event: Event)

  // ---- Ordered entries and cursors ----

  ghost predicate Ordered(s: seq<Entry>) {
    forall i, j :: 0 <= i < j < |s| ==> Less(s[i].id, s[j].id)
  }

  predicate Past(id: Id, cursor: Option<Id>) {
    cursor.None? || Less(cursor.value, id)
  }

  /** The entries after the cursor. */
  function After(s: seq<Entry>, cursor: Option<Id>): seq<Entry> {
    if s == [] then []
    else if Past(s[|s| - 1].id, cursor) then After(s[..|s| - 1], cursor) + [s[|s| - 1]]
    else After(s[..|s| - 1], cursor)
  }

  lemma {:induction false} AfterConcat(a: seq<Entry>, b: seq<Entry>, cursor: Option<Id>)
    ensures After(a + b, cursor) == After(a, cursor) + After(b, cursor)
  {
    if b == [] {
      assert a + b == a;
    } else {
      AfterConcat(a, b[..|b| - 1], cursor);
      assert (a + b)[..|a + b| - 1] == a + b[..|b| - 1];
    }
  }

  lemma {:induction false} AfterMember(s: seq<Entry>, cursor: Option<Id>, e: Entry)
    ensures e in After(s, cursor) <==> e in s && Past(e.id, cursor)
  {
    if s == [] {
    } else {
      AfterMember(s[..|s| - 1], cursor, e);
      assert s == s[..|s| - 1] + [s[|s| - 1]];
    }
  }

  lemma {:induction false} AfterAll(s: seq<Entry>, cursor: Option<Id>)
    requires forall e :: e in s ==> Past(e.id, cursor)
    ensures After(s, cursor) == s
  {
    if s == [] {
    } else {
      assert s[|s| - 1] in s && forall e :: e in s[..|s| - 1] ==> e in s;
      AfterAll(s[..|s| - 1], cursor);
    }
  }

  lemma {:induction false} AfterNone(s: seq<Entry>, cursor: Option<Id>)
    requires forall e :: e in s ==> !Past(e.id, cursor)
    ensures After(s, cursor) == []
  {
    if s == [] {
    } else {
      AfterNone(s[..|s| - 1], cursor);
    }
  }

  /** Splitting an ordered log at the cursor. */
  lemma {:induction false} AfterIsSuffix(s: seq<Entry>, cursor: Option<Id>)
    requires Ordered(s)
    ensures |After(s, cursor)| <= |s|
    ensures After(s, cursor) == s[|s| - |After(s, cursor)|..]
  {
    if s == [] {
    } else {
      var init := s[..|s| - 1];
      AfterIsSuffix(init, cursor);
      if Past(s[|s| - 1].id, cursor) {
        var k := |init| - |After(init, cursor)|;
        assert s[k..] == init[k..] + [s[|s| - 1]];
      } else {
        forall e | e in init ensures !Past(e.id, cursor) {
          var i :| 0 <= i < |init| && init[i] == e;
          assert Less(s[i].id, s[|s| - 1].id);
        }
        AfterNone(init, cursor);
      }
    }
  }

  // ---- The archive table ----

  type Table = map<nat, Event>

  function Least(keys: set<nat>): (k: nat)
    requires keys != {}
    ensures k in keys && forall x :: x in keys ==> k <= x
  {
    HasLeast(keys);
    var k :| IsLeast(k, keys);
    k
  }

  predicate IsLeast(k: nat, keys: set<nat>) {
    k in keys && forall x :: x in keys ==> k <= x
  }

  lemma {:induction false} LeastExists(keys: set<nat>) returns (k: nat)
    requires keys != {}
    ensures IsLeast(k, keys)
  {
    var p :| p in keys;
    var rest := keys - {p};
    k := p;
    if rest == {} {
    } else {
      var m := LeastExists(rest);
      k := if m < p then m else p;
    }
    forall x | x in keys ensures k <= x {
      assert x == p || x in rest;
    }
  }

  lemma HasLeast(keys: set<nat>)
    requires keys != {}
    ensures exists k :: IsLeast(k, keys)
  {
    var k := LeastExists(keys);
  }

  ghost predicate AscendingOf(s: seq<nat>, keys: set<nat>) {
    && (forall k :: k in keys <==> k in s)
    && (forall i, j :: 0 <= i < j < |s| ==> s[i] < s[j])
  }

  lemma AscendingCons(k: nat, rest: seq<nat>, keys: set<nat>)
    requires IsLeast(k, keys) && AscendingOf(rest, keys - {k})
    ensures AscendingOf([k] + rest, keys)
  {
    forall x ensures x in keys <==> x in [k] + rest {
      assert x in keys - {k} <==> x in rest;
    }
    forall i | 0 <= i < |rest| ensures k < rest[i] {
      assert rest[i] in rest;
    }
  }

  /** ORDER BY on the key column. */
  function Ascending(keys: set<nat>): (s: seq<nat>)
    ensures AscendingOf(s, keys)
    decreases |keys|
  {
    if keys == {} then []
    else
      var k := Least(keys);
      var rest := Ascending(keys - {k});
      AscendingCons(k, rest, keys);
      [k] + rest
  }

  function Rows(table: Table, keys: seq<nat>): (s: seq<Entry>)
    requires forall k :: k in keys ==> k in table
    ensures |s| == |keys| && forall i :: 0 <= i < |s| ==> s[i] == Entry(Unpack(keys[i]), table[keys[i]])
  {
    seq(|keys|, i requires 0 <= i < |keys| => Entry(Unpack(keys[i]), table[keys[i]]))
  }

  predicate InRange(key: nat, after: Option<Id>, before: Option<Id>) {
    (after.Some? ==> Pack(after.value) < key) && (before.Some? ==> key < Pack(before.value))
  }

  function Replay(table: Table, after: Option<Id>, before: Option<Id>): seq<Entry> {
    var keys := Ascending(set k | k in table && InRange(k, after, before));
    Rows(table, keys)
  }

  // ---- The state ----

  /** `all` is the abstract log: every event ever appended. */
  datatype State = State(all: seq<Entry>, stream: seq<Entry>, table: Table)

  predicate FitsKey(id: Id) { id.sq < 0x10_0000 }

  ghost predicate Suffix(a: seq<Entry>, b: seq<Entry>) {
    |a| <= |b| && a == b[|b| - |a|..]
  }

  /** Every row is the row of some appended event. */
  ghost predicate Faithful(all: seq<Entry>, table: Table) {
    forall k :: k in table ==> exists e :: e in all && k == Pack(e.id) && table[k] == e.event
  }

  ghost predicate Assigned(all: seq<Entry>) {
    forall e :: e in all ==> FitsKey(e.id) && Less(Id(0, 0), e.id)
  }

  ghost predicate Valid(s: State) {
    Ordered(s.all) && Assigned(s.all) && Suffix(s.stream, s.all) && Faithful(s.all, s.table)
  }

  const EMPTY := State([], [], map[])

  /** The commands that touch a run's events, each atomic at its server. */
  datatype Command =
    | Xadd(entry: Entry, maxLength: nat)
    | Insert(index: nat)
    | Expire
    | Purge(keys: set<nat>)

  function LastOf(s: seq<Entry>, n: nat): seq<Entry> {
    if |s| <= n then s else s[|s| - n..]
  }

  /** Redis assigns an id above every earlier one; the archive keeps the first row under a key. */
  predicate Enabled(s: State, c: Command) {
    match c
    case Xadd(e, _) => FitsKey(e.id) && Less(Id(0, 0), e.id) && (s.all == [] || Less(s.all[|s.all| - 1].id, e.id))
    case Insert(i) => i < |s.all|
    case Expire => true
    case Purge(_) => true
  }

  function Next(s: State, c: Command): State
    requires Enabled(s, c)
  {
    match c
    case Xadd(e, n) => s.(all := s.all + [e], stream := LastOf(s.stream + [e], n))
    case Insert(i) =>
      var key := Pack(s.all[i].id);
      if key in s.table then s else s.(table := s.table[key := s.all[i].event])
    case Expire => s.(stream := [])
    case Purge(keys) => s.(table := s.table - keys)
  }

  lemma OrderedAppend(all: seq<Entry>, e: Entry)
    requires Ordered(all) && (all == [] || Less(all[|all| - 1].id, e.id))
    ensures Ordered(all + [e])
  {}

  lemma FaithfulAppend(all: seq<Entry>, e: Entry, table: Table)
    requires Faithful(all, table)
    ensures Faithful(all + [e], table)
  {}

  lemma FaithfulInsert(all: seq<Entry>, e: Entry, table: Table)
    requires Faithful(all, table) && e in all
    ensures Faithful(all, table[Pack(e.id) := e.event])
  {}

  lemma FaithfulPurge(all: seq<Entry>, table: Table, keys: set<nat>)
    requires Faithful(all, table)
    ensures Faithful(all, table - keys)
  {}

  lemma SuffixAppend(stream: seq<Entry>, all: seq<Entry>, e: Entry, n: nat)
    requires Suffix(stream, all)
    ensures Suffix(LastOf(stream + [e], n), all + [e])
  {}

  lemma NextKeepsValid(s: State, c: Command)
    requires Valid(s) && Enabled(s, c)
    ensures Valid(Next(s, c))
  {
    match c {
      case Xadd(e, n) =>
        OrderedAppend(s.all, e);
        FaithfulAppend(s.all, e, s.table);
        SuffixAppend(s.stream, s.all, e, n);
      case Insert(i) => FaithfulInsert(s.all, s.all[i], s.table);
      case Expire =>
      case Purge(keys) => FaithfulPurge(s.all, s.table, keys);
    }
  }

  /**
   * What any interleaving of commands can do to a reader's earlier view: the log only grows, and what the stream has
   * dropped does not come back. Rows come late and are purged when they are old.
   */
  ghost predicate Evolves(s: State, t: State) {
    Valid(s) && Valid(t) && s.all <= t.all && Dropped(s) <= Dropped(t)
  }

  /** How many of the appended events the stream no longer holds. */
  ghost function Dropped(s: State): int {
    |s.all| - |s.stream|
  }

  /** A run of commands from s, none of them disabled. */
  ghost predicate Reaches(s: State, commands: seq<Command>, t: State)
    decreases |commands|
  {
    if commands == [] then s == t
    else Enabled(s, commands[0]) && Reaches(Next(s, commands[0]), commands[1..], t)
  }

  lemma NextEvolves(s: State, c: Command)
    requires Valid(s) && Enabled(s, c)
    ensures Evolves(s, Next(s, c))
  {
    NextKeepsValid(s, c);
  }

  lemma {:induction false} RunsEvolve(s: State, commands: seq<Command>, t: State)
    requires Valid(s) && Reaches(s, commands, t)
    ensures Evolves(s, t)
    decreases |commands|
  {
    if commands == [] {
    } else {
      NextEvolves(s, commands[0]);
      RunsEvolve(Next(s, commands[0]), commands[1..], t);
    }
  }

  /** Appends with the configured length only, and no expiry. */
  ghost predicate Steady(commands: seq<Command>, n: nat) {
    forall i :: 0 <= i < |commands| ==> !commands[i].Expire? && (commands[i].Xadd? ==> commands[i].maxLength == n)
  }

  /** While the key lives, the stream holds exactly the last n events appended, or all if there are no more. */
  lemma {:induction false} StreamIsLatest(s: State, commands: seq<Command>, t: State, n: nat)
    requires s.stream == LastOf(s.all, n) && Reaches(s, commands, t) && Steady(commands, n)
    ensures |t.stream| == (if |t.all| < n then |t.all| else n) && t.stream == t.all[|t.all| - |t.stream|..]
    decreases |commands|
  {
    if commands == [] {
    } else {
      var next, rest := Next(s, commands[0]), commands[1..];
      assert forall i :: 0 <= i < |rest| ==> rest[i] == commands[i + 1];
      assert !commands[0].Expire? && (commands[0].Xadd? ==> commands[0].maxLength == n);
      if commands[0].Xadd? {
        LastOfAppend(s.all, commands[0].entry, n);
      }
      StreamIsLatest(next, rest, t, n);
    }
  }

  lemma LastOfAppend(all: seq<Entry>, e: Entry, n: nat)
    ensures LastOf(LastOf(all, n) + [e], n) == LastOf(all + [e], n)
  {}

  // ---- Reading ----

  function FirstId(live: seq<Entry>): Option<Id> {
    if live == [] then None else Some(live[0].id)
  }

  /** XRANGE at the stream's instant, then the archive at its own: `stream` and `table` come from two states. */
  function Read(stream: seq<Entry>, table: Table, after: Option<Id>): seq<Entry> {
    var live := After(stream, after);
    Replay(table, after, FirstId(live)) + live
  }

  lemma HasMember(s: seq<Entry>)
    ensures s == [] || exists e :: e in s
  {
    if s != [] {
      assert s[0] in s;
    }
  }

  lemma LastUnique(a: seq<Entry>, b: seq<Entry>)
    requires a != [] && b != [] && Ordered(a) && Ordered(b)
    requires a[|a| - 1] in b && b[|b| - 1] in a
    ensures a[|a| - 1] == b[|b| - 1]
  {}

  /** An ordered log is determined by its members. */
  lemma {:induction false} OrderedUnique(a: seq<Entry>, b: seq<Entry>)
    requires Ordered(a) && Ordered(b)
    requires forall e :: e in a <==> e in b
    ensures a == b
  {
    HasMember(a);
    HasMember(b);
    if a != [] && b != [] {
      LastUnique(a, b);
      InitMember(a);
      InitMember(b);
      var p, q := a[..|a| - 1], b[..|b| - 1];
      forall e ensures e in p <==> e in q {
        assert e in a <==> e in b;
      }
      OrderedUnique(p, q);
    }
  }

  lemma InitMember(a: seq<Entry>)
    requires a != [] && Ordered(a)
    ensures Ordered(a[..|a| - 1])
    ensures forall e :: e in a[..|a| - 1] <==> e in a && e != a[|a| - 1]
  {}

  lemma ReplayMember(table: Table, after: Option<Id>, before: Option<Id>, e: Entry)
    ensures e in Replay(table, after, before) <==>
            FitsKey(e.id) && Pack(e.id) in table && table[Pack(e.id)] == e.event && InRange(Pack(e.id), after, before)
  {
    var keys := Ascending(set k | k in table && InRange(k, after, before));
    var rows := Replay(table, after, before);
    if e in rows {
      var i :| 0 <= i < |rows| && rows[i] == e;
      assert keys[i] in keys;
      PackOfUnpack(keys[i]);
      UnpackValue(keys[i]);
    }
    if FitsKey(e.id) && Pack(e.id) in table && table[Pack(e.id)] == e.event && InRange(Pack(e.id), after, before) {
      UnpackOfPackIff(e.id);
      assert Pack(e.id) in keys;
      var i :| 0 <= i < |keys| && keys[i] == Pack(e.id);
      assert rows[i] == e;
    }
  }

  lemma ReplayOrdered(table: Table, after: Option<Id>, before: Option<Id>)
    ensures Ordered(Replay(table, after, before))
  {
    var keys := Ascending(set k | k in table && InRange(k, after, before));
    var rows := Replay(table, after, before);
    forall i, j | 0 <= i < j < |rows| ensures Less(rows[i].id, rows[j].id) {
      UnpackValue(keys[i]);
      UnpackValue(keys[j]);
      PackOfUnpack(keys[i]);
      PackOfUnpack(keys[j]);
      PackPreservesOrder(Unpack(keys[i]), Unpack(keys[j]));
    }
  }

  /** An appended event whose key is present is stored under it unchanged. */
  lemma RowIsEntry(all: seq<Entry>, table: Table, e: Entry)
    requires Ordered(all) && Assigned(all) && Faithful(all, table)
    requires e in all && Pack(e.id) in table
    ensures table[Pack(e.id)] == e.event
  {
    var x :| x in all && Pack(e.id) == Pack(x.id) && table[Pack(e.id)] == x.event;
    PackPreservesOrder(e.id, x.id);
    var i :| 0 <= i < |all| && all[i] == e;
    var j :| 0 <= j < |all| && all[j] == x;
    PositionByOrder(all, i, j);
  }

  lemma PositionByOrder(s: seq<Entry>, i: nat, j: nat)
    requires Ordered(s) && i < |s| && j < |s|
    ensures Less(s[i].id, s[j].id) <==> i < j
    ensures s[i].id == s[j].id <==> i == j
  {}

  lemma PrefixMember(s: seq<Entry>, m: nat, e: Entry)
    requires Ordered(s) && m < |s|
    ensures e in s[..m] <==> e in s && Less(e.id, s[m].id)
  {}

  lemma LiveIsSuffix(s: State, after: Option<Id>)
    requires Valid(s)
    ensures Suffix(After(s.stream, after), s.all)
    ensures Ordered(After(s.stream, after))
    ensures forall e :: e in After(s.stream, after) ==> Past(e.id, after)
  {
    assert Ordered(s.stream) by {
      assert forall i :: 0 <= i < |s.stream| ==> s.stream[i] == s.all[|s.all| - |s.stream| + i];
    }
    AfterIsSuffix(s.stream, after);
    forall e | e in After(s.stream, after) ensures Past(e.id, after) {
      AfterMember(s.stream, after, e);
    }
  }

  lemma AfterOrdered(s: seq<Entry>, cursor: Option<Id>)
    requires Ordered(s)
    ensures Ordered(After(s, cursor))
  {
    AfterIsSuffix(s, cursor);
    var a := After(s, cursor);
    assert forall i :: 0 <= i < |a| ==> a[i] == s[|s| - |a| + i];
  }

  lemma PrefixOrdered(s: seq<Entry>, m: nat)
    requires Ordered(s) && m <= |s|
    ensures Ordered(s[..m])
  {}

  /** The cursor the archive goes by: its key, read back as an id. */
  function Packed(cursor: Option<Id>): Option<Id> {
    if cursor.None? then None else Some(Unpack(Pack(cursor.value)))
  }

  /** It is the cursor itself when its sequence number fits the key. */
  lemma PackedFits(cursor: Option<Id>)
    ensures cursor.None? || FitsKey(cursor.value) <==> Packed(cursor) == cursor
  {
    if cursor.Some? {
      UnpackOfPackIff(cursor.value);
    }
  }

  lemma AboveKey(cursor: Id, id: Id)
    requires FitsKey(id)
    ensures Pack(cursor) < Pack(id) <==> Less(Unpack(Pack(cursor)), id)
  {
    var p := Unpack(Pack(cursor));
    UnpackValue(Pack(cursor));
    PackOfUnpack(Pack(cursor));
    PackPreservesOrder(p, id);
  }

  /** Whether an entry lies before what the stream returned. */
  predicate BeforeLive(e: Entry, live: seq<Entry>) {
    live != [] ==> Less(e.id, live[0].id)
  }

  lemma RangeIs(id: Id, after: Option<Id>, live: seq<Entry>)
    requires FitsKey(id) && (live != [] ==> FitsKey(live[0].id))
    ensures InRange(Pack(id), after, FirstId(live)) <==>
            Past(id, Packed(after)) && (live != [] ==> Less(id, live[0].id))
  {
    if after.Some? {
      AboveKey(after.value, id);
    }
    if live != [] {
      PackPreservesOrder(id, live[0].id);
    }
  }

  lemma RowInAll(all: seq<Entry>, table: Table, e: Entry)
    requires Ordered(all) && Assigned(all) && Faithful(all, table) && FitsKey(e.id) && Pack(e.id) in table
    ensures e in all <==> table[Pack(e.id)] == e.event
  {
    if e in all {
      RowIsEntry(all, table, e);
    }
    if table[Pack(e.id)] == e.event {
      var x :| x in all && Pack(e.id) == Pack(x.id) && table[Pack(e.id)] == x.event;
      PackPreservesOrder(e.id, x.id);
      assert x == e;
    }
  }

  /** The archived events the query asks for: past the packed cursor and before what the stream returned. */
  ghost predicate Fetched(t: State, after: Option<Id>, live: seq<Entry>, e: Entry) {
    e in t.all && Pack(e.id) in t.table && Past(e.id, Packed(after)) && BeforeLive(e, live)
  }

  /** The archive query returns exactly those. */
  lemma ReplayIs(s: State, t: State, after: Option<Id>, e: Entry)
    requires Evolves(s, t) && Suffix(After(s.stream, after), s.all)
    ensures var live := After(s.stream, after);
            e in Replay(t.table, after, FirstId(live)) <==> Fetched(t, after, live, e)
  {
    var live := After(s.stream, after);
    ReplayMember(t.table, after, FirstId(live), e);
    if live != [] {
      assert live[0] == s.all[|s.all| - |live|];
      assert live[0] in s.all;
    }
    if FitsKey(e.id) {
      RangeIs(e.id, after, live);
      if Pack(e.id) in t.table {
        RowInAll(t.all, t.table, e);
      }
    }
  }

  /** No row comes from before the cursor, which packing may have moved back. */
  ghost predicate NoneRepeated(s: State, t: State, after: Option<Id>) {
    forall e :: Fetched(t, after, After(s.stream, after), e) ==> Past(e.id, after)
  }

  /** What neither tier returned: an event past the cursor, not among the stream's, whose row is not fetched. */
  ghost predicate Missed(t: State, after: Option<Id>, live: seq<Entry>, e: Entry) {
    e in t.all && Past(e.id, after) && BeforeLive(e, live) && !Fetched(t, after, live, e)
  }

  ghost predicate NoneFetchedAbove(t: State, after: Option<Id>, live: seq<Entry>, e: Entry) {
    forall x :: Fetched(t, after, live, x) ==> !Less(e.id, x.id)
  }

  /** A missed event was appended after the stream was read, and no row above it was fetched. */
  ghost predicate NoneSkipped(s: State, t: State, after: Option<Id>) {
    var live := After(s.stream, after);
    forall e :: Missed(t, after, live, e) ==> e !in s.all && NoneFetchedAbove(t, after, live, e)
  }

  /** The read is the log past the cursor as it was at some instant between the two halves, having k events. */
  ghost predicate ReadsUpTo(s: State, t: State, after: Option<Id>, k: nat) {
    |s.all| <= k <= |t.all| && Read(s.stream, t.table, after) == After(t.all[..k], after)
  }

  /** The rows fetched, in order; they are the archive's share of the read. */
  ghost function RowsOf(s: State, t: State, after: Option<Id>): seq<Entry> {
    Replay(t.table, after, FirstId(After(s.stream, after)))
  }

  lemma RowsAre(s: State, t: State, after: Option<Id>)
    requires Evolves(s, t) && Suffix(After(s.stream, after), s.all)
    ensures Ordered(RowsOf(s, t, after))
    ensures forall e :: e in RowsOf(s, t, after) <==> Fetched(t, after, After(s.stream, after), e)
  {
    var live := After(s.stream, after);
    ReplayOrdered(t.table, after, FirstId(live));
    forall e ensures e in RowsOf(s, t, after) <==> Fetched(t, after, live, e) {
      ReplayIs(s, t, after, e);
    }
  }

  lemma RowsAreAfter(all: seq<Entry>, k: nat, rows: seq<Entry>, after: Option<Id>)
    requires Ordered(all) && Ordered(rows) && k <= |all|
    ensures rows == After(all[..k], after) <==> (forall e :: e in rows <==> e in all[..k] && Past(e.id, after))
  {
    var part := After(all[..k], after);
    forall e ensures e in part <==> e in all[..k] && Past(e.id, after) {
      AfterMember(all[..k], after, e);
    }
    if forall e :: e in rows <==> e in all[..k] && Past(e.id, after) {
      PrefixOrdered(all, k);
      AfterOrdered(all[..k], after);
      OrderedUnique(rows, part);
    }
  }

  // ---- With nothing past the cursor in the stream ----

  /** How far the rows reach into the log: up to the last of them, and at least to position n. */
  ghost function Reach(all: seq<Entry>, n: nat, rows: seq<Entry>): (k: nat)
    requires n <= |all|
    ensures n <= k <= |all|
    ensures k == n || all[k - 1] in rows
    ensures forall i :: k <= i < |all| ==> all[i] !in rows
  {
    if n == |all| || all[|all| - 1] in rows then |all| else Reach(all[..|all| - 1], n, rows)
  }

  ghost predicate AboveAll(e: Entry, rows: seq<Entry>) {
    forall x :: x in rows ==> !Less(e.id, x.id)
  }

  /** The rows are past the cursor, and what they leave out past it is not among the first n and above them all. */
  ghost predicate Whole(all: seq<Entry>, n: nat, rows: seq<Entry>, after: Option<Id>)
    requires n <= |all|
  {
    && (forall e :: e in rows ==> e in all && Past(e.id, after))
    && (forall e :: e in all && Past(e.id, after) && e !in rows ==> e !in all[..n] && AboveAll(e, rows))
  }

  lemma WholeReaches(all: seq<Entry>, n: nat, rows: seq<Entry>, after: Option<Id>, e: Entry)
    requires Ordered(all) && n <= |all| && Whole(all, n, rows, after)
    ensures e in rows <==> e in all[..Reach(all, n, rows)] && Past(e.id, after)
  {
    var k := Reach(all, n, rows);
    if e in rows {
      RowIsReached(all, n, rows, e);
    } else if e in all[..k] && Past(e.id, after) {
      ReachedIsRow(all, n, rows, e);
    }
  }

  lemma RowIsReached(all: seq<Entry>, n: nat, rows: seq<Entry>, e: Entry)
    requires n <= |all| && e in rows && e in all
    ensures e in all[..Reach(all, n, rows)]
  {
    var i :| 0 <= i < |all| && all[i] == e;
    assert all[..Reach(all, n, rows)][i] == e;
  }

  lemma ReachedIsRow(all: seq<Entry>, n: nat, rows: seq<Entry>, e: Entry)
    requires Ordered(all) && n <= |all| && e in all[..Reach(all, n, rows)] && e !in all[..n] && AboveAll(e, rows)
    ensures e in rows
  {
    var k := Reach(all, n, rows);
    var i :| 0 <= i < k && all[..k][i] == e;
    assert all[i] == e;
    AmongFirst(all, n, i);
    PositionByOrder(all, i, k - 1);
  }

  lemma AmongFirst(all: seq<Entry>, n: nat, i: nat)
    requires n <= |all|
    ensures i < n ==> all[i] in all[..n]
  {
    if i < n {
      assert all[..n][i] == all[i];
    }
  }

  lemma PrefixIsWhole(all: seq<Entry>, n: nat, rows: seq<Entry>, after: Option<Id>, k: nat)
    requires Ordered(all) && n <= k <= |all|
    requires forall e :: e in rows <==> e in all[..k] && Past(e.id, after)
    ensures Whole(all, n, rows, after)
  {
    forall e | e in all && Past(e.id, after) && e !in rows ensures e !in all[..n] && AboveAll(e, rows) {
      InLonger(all, n, k, e);
      forall x | x in rows ensures !Less(e.id, x.id) {
        NotBelow(all, k, e, x);
      }
    }
  }

  lemma InLonger(all: seq<Entry>, n: nat, k: nat, e: Entry)
    requires n <= k <= |all|
    ensures e in all[..n] ==> e in all[..k]
  {
    assert all[..n] == all[..k][..n];
  }

  lemma NotBelow(all: seq<Entry>, k: nat, e: Entry, x: Entry)
    requires Ordered(all) && k <= |all| && e in all && e !in all[..k] && x in all[..k]
    ensures !Less(e.id, x.id)
  {
    var j :| 0 <= j < |all| && all[j] == e;
    var i :| 0 <= i < k && all[..k][i] == x;
    assert all[i] == x && j >= k;
    PositionByOrder(all, j, i);
  }

  lemma WholeMeans(s: State, t: State, after: Option<Id>)
    requires Evolves(s, t) && After(s.stream, after) == []
    ensures Whole(t.all, |s.all|, RowsOf(s, t, after), after) <==> NoneRepeated(s, t, after) && NoneSkipped(s, t, after)
  {
    var rows := RowsOf(s, t, after);
    RowsAre(s, t, after);
    assert t.all[..|s.all|] == s.all;
    if Whole(t.all, |s.all|, rows, after) {
      forall e | Missed(t, after, [], e) ensures e !in s.all && NoneFetchedAbove(t, after, [], e) {
        AboveMeans(s, t, after, e);
      }
    }
    if NoneRepeated(s, t, after) && NoneSkipped(s, t, after) {
      NoneSkippedIsWhole(s, t, after);
    }
  }

  lemma NoneSkippedIsWhole(s: State, t: State, after: Option<Id>)
    requires Evolves(s, t) && After(s.stream, after) == []
    requires NoneRepeated(s, t, after) && NoneSkipped(s, t, after)
    ensures Whole(t.all, |s.all|, RowsOf(s, t, after), after)
  {
    var rows := RowsOf(s, t, after);
    RowsAre(s, t, after);
    assert t.all[..|s.all|] == s.all;
    forall e | e in t.all && Past(e.id, after) && e !in rows ensures e !in s.all && AboveAll(e, rows) {
      assert Missed(t, after, [], e);
      AboveMeans(s, t, after, e);
    }
  }

  lemma AboveMeans(s: State, t: State, after: Option<Id>, e: Entry)
    requires Evolves(s, t) && After(s.stream, after) == []
    ensures AboveAll(e, RowsOf(s, t, after)) <==> NoneFetchedAbove(t, after, [], e)
  {
    RowsAre(s, t, after);
  }

  lemma RowsReadIff(s: State, t: State, after: Option<Id>)
    requires Evolves(s, t) && After(s.stream, after) == []
    ensures (exists k :: ReadsUpTo(s, t, after, k)) <==> NoneRepeated(s, t, after) && NoneSkipped(s, t, after)
    ensures var k := Reach(t.all, |s.all|, RowsOf(s, t, after));
            (exists j :: ReadsUpTo(s, t, after, j)) ==> ReadsUpTo(s, t, after, k)
  {
    var rows := RowsOf(s, t, after);
    RowsAre(s, t, after);
    WholeMeans(s, t, after);
    assert Read(s.stream, t.table, after) == rows;
    if k :| ReadsUpTo(s, t, after, k) {
      RowsAreAfter(t.all, k, rows, after);
      PrefixIsWhole(t.all, |s.all|, rows, after, k);
    }
    if Whole(t.all, |s.all|, rows, after) {
      var k := Reach(t.all, |s.all|, rows);
      forall e ensures e in rows <==> e in t.all[..k] && Past(e.id, after) {
        WholeReaches(t.all, |s.all|, rows, after, e);
      }
      RowsAreAfter(t.all, k, rows, after);
      assert ReadsUpTo(s, t, after, k);
    }
  }

  // ---- With something past the cursor in the stream ----

  /** Then the read ends where the log ended at the start. */
  lemma LiveReadsToStart(s: State, t: State, after: Option<Id>, k: nat)
    requires Evolves(s, t) && After(s.stream, after) != [] && ReadsUpTo(s, t, after, k)
    ensures k == |s.all|
  {
    LiveIsSuffix(s, after);
    var live, n := After(s.stream, after), |s.all|;
    assert live[|live| - 1] in live;
    assert s.all[n - 1] == live[|live| - 1] == t.all[n - 1];
    var read := Read(s.stream, t.table, after);
    assert read[|read| - 1] == live[|live| - 1];
    SameEnd(t.all, n, k, read, after);
  }

  lemma SameEnd(s: seq<Entry>, n: nat, k: nat, part: seq<Entry>, cursor: Option<Id>)
    requires Ordered(s) && 0 < n <= k <= |s| && part != [] && part == After(s[..k], cursor)
    requires part[|part| - 1] == s[n - 1] && Past(s[n - 1].id, cursor)
    ensures k == n
  {
    PositionByOrder(s, n - 1, k - 1);
    LaterIsPast(s, n - 1, k - 1, cursor);
    LastRead(s, k, cursor);
  }

  lemma LaterIsPast(s: seq<Entry>, i: nat, j: nat, cursor: Option<Id>)
    requires Ordered(s) && i <= j < |s| && Past(s[i].id, cursor)
    ensures Past(s[j].id, cursor)
  {}

  lemma LastRead(s: seq<Entry>, k: nat, cursor: Option<Id>)
    requires 0 < k <= |s| && Past(s[k - 1].id, cursor)
    ensures var part := After(s[..k], cursor); part != [] && part[|part| - 1] == s[k - 1]
  {
    assert s[..k][|s[..k]| - 1] == s[k - 1];
  }

  lemma LiveReadIff(s: State, t: State, after: Option<Id>)
    requires Evolves(s, t) && After(s.stream, after) != []
    ensures ReadsUpTo(s, t, after, |s.all|) <==> NoneRepeated(s, t, after) && NoneSkipped(s, t, after)
  {
    LiveIsSuffix(s, after);
    var live := After(s.stream, after);
    var m := |s.all| - |live|;
    assert t.all[m] == s.all[m] == live[0];
    LiveReadIsRows(s, t, after, m);
    RowsAre(s, t, after);
    RowsAreAfter(t.all, m, RowsOf(s, t, after), after);
    BelowLiveIff(s, t, after, m);
  }

  lemma LiveReadIsRows(s: State, t: State, after: Option<Id>, m: nat)
    requires Suffix(After(s.stream, after), s.all) && m == |s.all| - |After(s.stream, after)| && s.all <= t.all
    requires forall e :: e in After(s.stream, after) ==> Past(e.id, after)
    ensures ReadsUpTo(s, t, after, |s.all|) <==> RowsOf(s, t, after) == After(t.all[..m], after)
  {
    assert t.all[..|s.all|] == s.all && t.all[..m] == s.all[..m];
    RowsPlusLive(s.all[..m], After(s.stream, after), s.all, RowsOf(s, t, after), after);
  }

  lemma RowsPlusLive(pre: seq<Entry>, live: seq<Entry>, all: seq<Entry>, rows: seq<Entry>, after: Option<Id>)
    requires Suffix(live, all) && pre == all[..|all| - |live|] && forall e :: e in live ==> Past(e.id, after)
    ensures rows + live == After(all, after) <==> rows == After(pre, after)
  {
    assert all == pre + live;
    AfterConcat(pre, live, after);
    AfterAll(live, after);
    SameHead(rows, After(pre, after), live);
  }

  lemma BelowLiveIff(s: State, t: State, after: Option<Id>, m: nat)
    requires var live := After(s.stream, after);
             Evolves(s, t) && live != [] && m < |s.all| && t.all[m] == s.all[m] == live[0]
    ensures (forall e :: Fetched(t, after, After(s.stream, after), e) <==> e in t.all[..m] && Past(e.id, after)) <==>
            NoneRepeated(s, t, after) && NoneSkipped(s, t, after)
  {
    var live := After(s.stream, after);
    forall e ensures e in t.all[..m] <==> e in t.all && BeforeLive(e, live) {
      PrefixMember(t.all, m, e);
    }
    forall e | e in t.all[..m] ensures e in s.all {
      var i :| 0 <= i < m && t.all[..m][i] == e;
      assert s.all[i] == e;
    }
  }

  /** How much of the log a read has covered. */
  ghost function Covered(s: State, t: State, after: Option<Id>): (k: nat)
    requires Evolves(s, t)
    ensures |s.all| <= k <= |t.all|
  {
    if After(s.stream, after) == [] then Reach(t.all, |s.all|, RowsOf(s, t, after)) else |s.all|
  }

  /**
   * The two tiers read as one log, in order, without gap or duplicate, exactly when packing the cursor brings in no
   * event from before it and every event past it that was not fetched is newer than the XRANGE and than all that was.
   * Trimming, expiry, appends and purges may happen between the two halves of the read.
   */
  lemma ReadIsLogIff(s: State, t: State, after: Option<Id>)
    requires Evolves(s, t)
    ensures (exists k :: ReadsUpTo(s, t, after, k)) <==> NoneRepeated(s, t, after) && NoneSkipped(s, t, after)
    ensures (exists k :: ReadsUpTo(s, t, after, k)) ==> ReadsUpTo(s, t, after, Covered(s, t, after))
  {
    if After(s.stream, after) == [] {
      RowsReadIff(s, t, after);
    } else {
      LiveReadIff(s, t, after);
      if k :| ReadsUpTo(s, t, after, k) {
        LiveReadsToStart(s, t, after, k);
      }
    }
  }

  /** A cursor whose sequence number fits the key is not moved: only a row that is missing can then spoil a read. */
  lemma FittingCursorReads(s: State, t: State, after: Option<Id>)
    requires Evolves(s, t) && (after.None? || FitsKey(after.value))
    ensures (exists k :: ReadsUpTo(s, t, after, k)) <==> NoneSkipped(s, t, after)
    ensures (forall e :: e in t.all && Past(e.id, after) ==> Pack(e.id) in t.table) ==> NoneSkipped(s, t, after)
  {
    PackedFits(after);
    ReadIsLogIff(s, t, after);
  }

  lemma SameHead(a: seq<Entry>, b: seq<Entry>, tail: seq<Entry>)
    ensures a + tail == b + tail <==> a == b
  {
    if a + tail == b + tail {
      assert |a| == |b|;
      assert a == (a + tail)[..|a|] && b == (b + tail)[..|a|];
    }
  }

  /**
   * An event between its XADD and its INSERT is skipped for good: the stream shows nothing past the cursor, the next
   * event is appended and archived before the archive is asked, and the cursor moves on to that one.
   */
  lemma AppendAwaitingRowIsSkipped(a: Entry, e1: Entry, e2: Entry, n: nat)
    requires Ordered([a, e1, e2]) && Assigned([a, e1, e2]) && n >= 3
    ensures var s := State([a], [a], map[]);
            var t := State([a, e1, e2], [a, e1, e2], map[Pack(e2.id) := e2.event]);
            && Reaches(EMPTY, [Xadd(a, n)], s) && Reaches(s, [Xadd(e1, n), Xadd(e2, n), Insert(2)], t)
            && Read(s.stream, t.table, Some(a.id)) == [e2]
            && After(t.all, Some(a.id)) == [e1, e2] && After(t.all, Some(e2.id)) == []
  {
    var table := map[Pack(e2.id) := e2.event];
    TwoAppendsOneRow(a, e1, e2, n);
    var cursor := Some(a.id);
    AfterThree(a, e1, e2);
    assert After([a], cursor) == [] by {
      AfterNone([a], cursor);
    }
    var rows := Replay(table, cursor, None);
    forall e ensures e in rows <==> e in [e2] {
      ReplayMember(table, cursor, None, e);
      PackPreservesOrder(a.id, e2.id);
      if FitsKey(e.id) {
        PackPreservesOrder(e.id, e2.id);
      }
    }
    ReplayOrdered(table, cursor, None);
    OrderedUnique(rows, [e2]);
  }

  lemma TwoAppendsOneRow(a: Entry, e1: Entry, e2: Entry, n: nat)
    requires Ordered([a, e1, e2]) && Assigned([a, e1, e2]) && n >= 3
    ensures Reaches(EMPTY, [Xadd(a, n)], State([a], [a], map[]))
    ensures Reaches(State([a], [a], map[]), [Xadd(e1, n), Xadd(e2, n), Insert(2)],
                    State([a, e1, e2], [a, e1, e2], map[Pack(e2.id) := e2.event]))
  {
    var s0, s1, s2 := State([a], [a], map[]), State([a, e1], [a, e1], map[]), State([a, e1, e2], [a, e1, e2], map[]);
    var three := [a, e1, e2];
    assert three[0] == a && three[1] == e1 && three[2] == e2;
    assert Less(three[0].id, three[1].id) && Less(three[1].id, three[2].id);
    assert a in three && e1 in three && e2 in three;
    StepOnce(EMPTY, Xadd(a, n), [], s0, s0);
    var t := s2.(table := map[Pack(e2.id) := e2.event]);
    StepOnce(s2, Insert(2), [], t, t);
    StepOnce(s1, Xadd(e2, n), [Insert(2)], s2, t);
    StepOnce(s0, Xadd(e1, n), [Xadd(e2, n), Insert(2)], s1, t);
    assert [Xadd(e1, n)] + [Xadd(e2, n), Insert(2)] == [Xadd(e1, n), Xadd(e2, n), Insert(2)];
    assert [Xadd(e2, n)] + [Insert(2)] == [Xadd(e2, n), Insert(2)];
    assert [Insert(2)] + [] == [Insert(2)] && [Xadd(a, n)] + [] == [Xadd(a, n)];
  }

  lemma StepOnce(s: State, c: Command, rest: seq<Command>, mid: State, t: State)
    requires Enabled(s, c) && Next(s, c) == mid && Reaches(mid, rest, t)
    ensures Reaches(s, [c] + rest, t)
  {
    assert ([c] + rest)[1..] == rest;
  }

  lemma AfterThree(a: Entry, e1: Entry, e2: Entry)
    requires Ordered([a, e1, e2])
    ensures After([a, e1, e2], Some(a.id)) == [e1, e2] && After([a, e1, e2], Some(e2.id)) == []
  {
    var s := [a, e1, e2];
    PositionByOrder(s, 0, 1);
    PositionByOrder(s, 0, 2);
    assert s == [a] + [e1, e2];
    AfterConcat([a], [e1, e2], Some(a.id));
    AfterNone([a], Some(a.id));
    AfterAll([e1, e2], Some(a.id));
    NoneAfterLast(s);
  }

  lemma NoneAfterLast(s: seq<Entry>)
    requires Ordered(s) && s != []
    ensures After(s, Some(s[|s| - 1].id)) == []
  {
    forall e | e in s ensures !Past(e.id, Some(s[|s| - 1].id)) {
      var i :| 0 <= i < |s| && s[i] == e;
      PositionByOrder(s, |s| - 1, i);
    }
    AfterNone(s, Some(s[|s| - 1].id));
  }

  /** The packed cursor parts the events the stream did not return as the cursor itself does. */
  ghost predicate CursorAgrees(s: State, after: Option<Id>) {
    var live := After(s.stream, after);
    forall e :: e in s.all && BeforeLive(e, live) ==> (Past(e.id, Packed(after)) <==> Past(e.id, after))
  }

  /** After any run of commands, while every event has its row, a read at rest is the log past the cursor. */
  lemma ReadAfterAnyRun(commands: seq<Command>, s: State, after: Option<Id>)
    requires Reaches(EMPTY, commands, s)
    requires forall e :: e in s.all ==> Pack(e.id) in s.table
    ensures Read(s.stream, s.table, after) == After(s.all, after) <==> CursorAgrees(s, after)
    ensures after.None? || FitsKey(after.value) ==> Read(s.stream, s.table, after) == After(s.all, after)
  {
    RunsEvolve(EMPTY, commands, s);
    ReadAtRest(s, after);
    AgreesIff(s, after);
    PackedFits(after);
  }

  lemma ReadAtRest(s: State, after: Option<Id>)
    requires Valid(s)
    ensures Read(s.stream, s.table, after) == After(s.all, after) <==>
            NoneRepeated(s, s, after) && NoneSkipped(s, s, after)
  {
    ReadIsLogIff(s, s, after);
    assert s.all[..|s.all|] == s.all;
    assert ReadsUpTo(s, s, after, |s.all|) <==> Read(s.stream, s.table, after) == After(s.all, after);
  }

  lemma AgreesIff(s: State, after: Option<Id>)
    requires forall e :: e in s.all ==> Pack(e.id) in s.table
    ensures CursorAgrees(s, after) <==> NoneRepeated(s, s, after) && NoneSkipped(s, s, after)
  {
    var live := After(s.stream, after);
    forall e | e in s.all && BeforeLive(e, live)
      ensures Fetched(s, after, live, e) <==> Past(e.id, Packed(after))
      ensures Missed(s, after, live, e) <==> Past(e.id, after) && !Past(e.id, Packed(after))
    {}
  }

  /** A cursor with a sequence of 2^20 is packed onto the first id of the next millisecond, whose event is skipped. */
  lemma WideCursorSkips(body: string)
    ensures var e := Entry(Id(1, 0), Event(false, body));
            var s := State([e], [], map[Pack(e.id) := e.event]);
            var after := Some(Id(0, 0x10_0000));
            Valid(s) && Past(e.id, after) && After(s.all, after) == [e] && Read(s.stream, s.table, after) == []
  {
    var e := Entry(Id(1, 0), Event(false, body));
    var s := State([e], [], map[Pack(e.id) := e.event]);
    var after := Some(Id(0, 0x10_0000));
    PackCollides();
    assert e in s.all;
    assert After([], after) == [] && After(s.all, after) == [e];
    assert (set k | k in s.table && InRange(k, after, None)) == {};
  }
}
