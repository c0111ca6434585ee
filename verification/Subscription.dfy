/**
 * A subscription to a run's events as the reads it consists of (src/app/run/log.py, follow and _ended): what a
 * subscriber is shown, and when that is the log.
 */
module Subscription {
  import opened Common
  import opened EventId
  import opened EventLog

  // ---- What a subscriber is owed ----

  ghost predicate HasTerminal(s: seq<Entry>) {
    exists i :: 0 <= i < |s| && s[i].event.terminal
  }

  /** Up to and including the first terminal event. */
  function Shown(s: seq<Entry>): seq<Entry> {
    if s == [] || s[0].event.terminal then (if s == [] then [] else [s[0]])
    else [s[0]] + Shown(s[1..])
  }

  lemma {:induction false} ShownWhole(s: seq<Entry>)
    requires !HasTerminal(s)
    ensures Shown(s) == s
  {
    if s == [] {
    } else {
      assert forall i :: 0 <= i < |s[1..]| ==> s[1..][i] == s[i + 1];
      ShownWhole(s[1..]);
      assert s == [s[0]] + s[1..];
    }
  }

  lemma {:induction false} ShownConcat(a: seq<Entry>, b: seq<Entry>)
    ensures !HasTerminal(a) ==> Shown(a + b) == a + Shown(b)
    ensures HasTerminal(a) ==> Shown(a + b) == Shown(a)
  {
    if a == [] {
      assert a + b == b;
    } else {
      assert (a + b)[0] == a[0] && (a + b)[1..] == a[1..] + b;
      if a[0].event.terminal {
        assert HasTerminal(a);
      } else {
        ShownConcat(a[1..], b);
        TailTerminal(a);
        assert a == [a[0]] + a[1..];
      }
    }
  }

  lemma TailTerminal(a: seq<Entry>)
    requires a != [] && !a[0].event.terminal
    ensures HasTerminal(a) <==> HasTerminal(a[1..])
  {}

  /** Shown is a prefix in which only the last entry may be terminal. */
  lemma {:induction false} ShownShape(s: seq<Entry>)
    ensures Shown(s) <= s
    ensures forall i :: 0 <= i < |Shown(s)| - 1 ==> !Shown(s)[i].event.terminal
    ensures HasTerminal(s) <==> (Shown(s) != [] && Shown(s)[|Shown(s)| - 1].event.terminal)
    ensures !HasTerminal(s) ==> Shown(s) == s
  {
    if s != [] && !s[0].event.terminal {
      ShownShape(s[1..]);
      TailTerminal(s);
      if !HasTerminal(s) {
        ShownWhole(s);
      }
    }
  }

  // ---- Cursors ----

  function Cursor(start: Option<Id>, delivered: seq<Entry>): Option<Id> {
    if delivered == [] then start else Some(delivered[|delivered| - 1].id)
  }

  lemma {:induction false} AfterPosition(log: seq<Entry>, n: nat)
    requires Ordered(log) && n < |log|
    ensures After(log, Some(log[n].id)) == log[n + 1..]
    decreases |log|
  {
    var m := |log| - 1;
    PositionByOrder(log, n, m);
    if n == m {
      NothingPast(log, Some(log[n].id));
    } else {
      AfterPosition(log[..m], n);
      assert log[n + 1..] == log[..m][n + 1..] + [log[m]];
    }
  }

  /** Reading on from a delivered entry returns exactly what follows it. */
  lemma AfterAdvance(log: seq<Entry>, start: Option<Id>, k: nat)
    requires Ordered(log) && k < |After(log, start)|
    ensures After(log, Some(After(log, start)[k].id)) == After(log, start)[k + 1..]
  {
    AfterIsSuffix(log, start);
    AfterPosition(log, |log| - |After(log, start)| + k);
  }

  lemma AfterPrefix(shorter: seq<Entry>, longer: seq<Entry>, start: Option<Id>)
    requires shorter <= longer
    ensures After(shorter, start) <= After(longer, start)
  {
    assert longer == shorter + longer[|shorter|..];
    AfterConcat(shorter, longer[|shorter|..], start);
  }

  /** Two reads with the cursor moved in between see what one later read sees. */
  lemma CursorSplit(shorter: seq<Entry>, longer: seq<Entry>, start: Option<Id>)
    requires Ordered(longer) && shorter <= longer
    ensures After(longer, start) ==
            After(shorter, start) + After(longer, Cursor(start, After(shorter, start)))
  {
    var first := After(shorter, start);
    AfterPrefix(shorter, longer, start);
    if first != [] {
      AfterAdvance(longer, start, |first| - 1);
      var all := After(longer, start);
      assert all[|first| - 1] == first[|first| - 1];
      assert all == all[..|first|] + all[|first|..];
    }
  }

  /** Reading on from an entry already received: the two parts are the uninterrupted output on the later log. */
  lemma ResumedLog(before: seq<Entry>, later: seq<Entry>, last: seq<Entry>, start: Option<Id>, k: nat,
                   first: seq<Entry>, second: seq<Entry>)
    requires Ordered(last) && before <= later <= last
    requires first == Shown(After(before, start)) && k < |first| && !first[k].event.terminal
    requires second == Shown(After(later, Some(first[k].id)))
    ensures first[..k + 1] + second == Shown(After(later, start))
  {
    assert later == last[..|later|];
    PrefixOrdered(last, |later|);
    var some, all := After(before, start), After(later, start);
    AfterPrefix(before, later, start);
    ShownUpTo(some, all, k);
    AfterAdvance(later, start, k);
    assert all == all[..k + 1] + all[k + 1..];
    ShownConcat(all[..k + 1], all[k + 1..]);
  }

  /** Up to a shown entry that is not terminal, what is shown is the log itself, and none of it is terminal. */
  lemma ShownUpTo(some: seq<Entry>, all: seq<Entry>, k: nat)
    requires some <= all && k < |Shown(some)| && !Shown(some)[k].event.terminal
    ensures k < |all| && Shown(some)[..k + 1] == all[..k + 1] && !HasTerminal(all[..k + 1])
  {
    ShownShape(some);
    var out, head := Shown(some), all[..k + 1];
    assert forall i :: 0 <= i < k + 1 ==> head[i] == out[i];
    assert forall i :: 0 <= i < k + 1 ==> !out[i].event.terminal;
  }

  lemma EvolvesTransitive(a: State, b: State, c: State)
    requires Evolves(a, b) && Evolves(b, c)
    ensures Evolves(a, c)
  {}

  // ---- A subscription as its reads ----

  /** The first read is a stretch of the log: nothing from before the cursor, and nothing skipped. */
  ghost predicate ReadExact(s: State, t: State, after: Option<Id>) {
    NoneRepeated(s, t, after) && NoneSkipped(s, t, after)
  }

  /** Nothing up to the first terminal event read comes from before the cursor, and no event below it was missed. */
  ghost predicate ExactToEnd(s: State, t: State, after: Option<Id>) {
    var live, shown := After(s.stream, after), Shown(EventLog.Read(s.stream, t.table, after));
    && (forall e :: e in shown ==> Past(e.id, after))
    && (forall e :: Missed(t, after, live, e) ==> shown != [] && Less(shown[|shown| - 1].id, e.id))
  }

  /** What a subscriber is shown of the first read is a stretch of the log. */
  ghost predicate FirstExact(s: State, t: State, after: Option<Id>) {
    if HasTerminal(EventLog.Read(s.stream, t.table, after)) then ExactToEnd(s, t, after) else ReadExact(s, t, after)
  }

  /** What _ended answers, from the stream as read first and the archive as read after it. */
  predicate HasEnded(stream: seq<Entry>, table: Table, cursor: Option<Id>, terminal: bool) {
    var visible := if stream != [] then stream else Replay(table, None, None);
    if visible == [] then terminal
    else !Past(visible[|visible| - 1].id, cursor) && visible[|visible| - 1].event.terminal
  }

  /** The newest event that has its row. */
  ghost predicate LastArchived(t: State, e: Entry) {
    e in t.all && Pack(e.id) in t.table && forall x :: x in t.all && Pack(x.id) in t.table ==> !Less(e.id, x.id)
  }

  /**
   * When a subscription is to be closed: the newest event that can be seen is terminal and not past the cursor; if none
   * can be seen, when the run's row is terminal.
   */
  ghost predicate Closed(s: State, t: State, cursor: Option<Id>, terminal: bool) {
    if s.stream != [] then s.all != [] && s.all[|s.all| - 1].event.terminal && After(s.all, cursor) == []
    else if t.table == map[] then terminal
    else exists e :: LastArchived(t, e) && e.event.terminal && !Past(e.id, cursor)
  }

  /** One turn: the states at the two reads of _ended, and at the blocking read, if it came to that. */
  datatype Turn = Turn(probed: State, asked: State, at: State, ended: bool)

  ghost predicate TurnFollows(before: State, turn: Turn) {
    Evolves(before, turn.probed) && Evolves(turn.probed, turn.asked) && Evolves(turn.asked, turn.at)
  }

  ghost predicate TurnIs(before: State, turn: Turn, cursor: Option<Id>, terminal: bool) {
    && TurnFollows(before, turn)
    && turn.ended == Closed(turn.probed, turn.asked, cursor, terminal)
  }

  lemma LaterLog(before: State, turn: Turn)
    requires TurnFollows(before, turn)
    ensures before.all <= turn.at.all && Ordered(turn.at.all)
  {}

  ghost predicate LastEnded(turns: seq<Turn>) {
    turns != [] && turns[|turns| - 1].ended
  }

  ghost function Latest(caught: State, turns: seq<Turn>): State {
    if turns == [] then caught else turns[|turns| - 1].at
  }

  /** What the reads yield: the first one, then each blocking one past the cursor, each up to a terminal event. */
  ghost function Output(begun: State, caught: State, turns: seq<Turn>, after: Option<Id>): seq<Entry> {
    if turns == [] then Shown(EventLog.Read(begun.stream, caught.table, after))
    else
      var turn := turns[|turns| - 1];
      var before := Output(begun, caught, turns[..|turns| - 1], after);
      if turn.ended then before else before + Shown(After(turn.at.stream, Cursor(after, before)))
  }

  /** The turns follow one another, each with the cursor after the last entry yielded, and only while not done. */
  ghost predicate Happened(begun: State, caught: State, turns: seq<Turn>, after: Option<Id>, terminal: bool): (ok: bool)
    ensures ok ==> Evolves(begun, caught)
    decreases |turns|
  {
    if turns == [] then Evolves(begun, caught)
    else
      var init := turns[..|turns| - 1];
      var before := Output(begun, caught, init, after);
      && Happened(begun, caught, init, after, terminal)
      && !LastEnded(init) && !HasTerminal(before)
      && TurnIs(Latest(caught, init), turns[|turns| - 1], Cursor(after, before), terminal)
  }

  /** The turn had nothing to yield. */
  ghost predicate Quiet(turn: Turn, cursor: Option<Id>) {
    turn.ended || After(turn.at.stream, cursor) == []
  }

  /** Everything past the cursor was in the stream at the blocking read. */
  ghost predicate CaughtUp(turn: Turn, cursor: Option<Id>) {
    After(turn.at.stream, cursor) == After(turn.at.all, cursor)
  }

  /** No read skipped anything: the first exact, each blocking one empty or all there is past the cursor. */
  ghost predicate Intact(begun: State, caught: State, turns: seq<Turn>, after: Option<Id>)
    decreases |turns|
  {
    if turns == [] then FirstExact(begun, caught, after)
    else
      var init, turn := turns[..|turns| - 1], turns[|turns| - 1];
      var cursor := Cursor(after, Output(begun, caught, init, after));
      Intact(begun, caught, init, after) && (Quiet(turn, cursor) || CaughtUp(turn, cursor))
  }

  ghost function FirstKnown(s: State, t: State, after: Option<Id>): seq<Entry>
    requires Evolves(s, t)
  {
    if HasTerminal(EventLog.Read(s.stream, t.table, after)) then t.all else t.all[..Covered(s, t, after)]
  }

  /** The log as far as it has been read. */
  ghost function Known(begun: State, caught: State, turns: seq<Turn>, after: Option<Id>): seq<Entry>
    requires Evolves(begun, caught)
    decreases |turns|
  {
    if turns == [] then FirstKnown(begun, caught, after)
    else
      var init, turn := turns[..|turns| - 1], turns[|turns| - 1];
      if turn.ended || !CaughtUp(turn, Cursor(after, Output(begun, caught, init, after)))
      then Known(begun, caught, init, after)
      else turn.at.all
  }

  lemma HappenedValid(begun: State, caught: State, turns: seq<Turn>, after: Option<Id>, terminal: bool)
    requires Happened(begun, caught, turns, after, terminal)
    ensures Valid(Latest(caught, turns))
  {}

  lemma CursorMoves(after: Option<Id>, sofar: seq<Entry>, more: seq<Entry>)
    ensures Cursor(Cursor(after, sofar), more) == Cursor(after, sofar + more)
  {}

  /** Adding a turn to a subscription that is not done. */
  lemma NextTurn(
    begun: State, caught: State, turns: seq<Turn>, after: Option<Id>, terminal: bool, turn: Turn, batch: seq<Entry>)
    requires Happened(begun, caught, turns, after, terminal) && !LastEnded(turns)
    requires var before := Output(begun, caught, turns, after);
             && !HasTerminal(before) && TurnIs(Latest(caught, turns), turn, Cursor(after, before), terminal)
             && batch == if turn.ended then [] else After(turn.at.stream, Cursor(after, before))
    ensures Happened(begun, caught, turns + [turn], after, terminal)
    ensures Output(begun, caught, turns + [turn], after) == Output(begun, caught, turns, after) + Shown(batch)
    ensures HasTerminal(Output(begun, caught, turns + [turn], after)) <==> HasTerminal(batch)
  {
    var more := turns + [turn];
    assert more[..|more| - 1] == turns;
    NoTerminalConcat(Output(begun, caught, turns, after), Shown(batch));
    ShownTerminal(batch);
  }

  lemma LastIsMember(s: seq<Entry>)
    ensures s != [] && s[|s| - 1].event.terminal ==> HasTerminal(s)
  {}

  lemma ShownTerminal(s: seq<Entry>)
    ensures HasTerminal(Shown(s)) <==> HasTerminal(s)
  {
    ShownShape(s);
    LastIsMember(Shown(s));
  }

  // ---- Reads that skip nothing yield the log ----

  /** Reading on from what has been shown of a log gives what a later log shows. */
  lemma ShownOn(known: seq<Entry>, all: seq<Entry>, after: Option<Id>)
    requires Ordered(all) && known <= all && !HasTerminal(After(known, after))
    ensures var shown := After(known, after);
            shown + Shown(After(all, Cursor(after, shown))) == Shown(After(all, after))
  {
    var shown := After(known, after);
    CursorSplit(known, all, after);
    ShownConcat(shown, After(all, Cursor(after, shown)));
  }

  /** What is yielded is the known log past the start, up to a terminal event; it has all there was at first. */
  ghost predicate YieldsKnown(begun: State, caught: State, turns: seq<Turn>, after: Option<Id>)
    requires Evolves(begun, caught)
  {
    var known := Known(begun, caught, turns, after);
    && begun.all <= known <= Latest(caught, turns).all
    && Output(begun, caught, turns, after) == Shown(After(known, after))
  }

  /** While no read skips anything, a subscription yields the log as far as it has read, up to a terminal event. */
  lemma {:induction false} FollowIsLog(begun: State, caught: State, turns: seq<Turn>, after: Option<Id>, terminal: bool)
    requires Happened(begun, caught, turns, after, terminal) && Intact(begun, caught, turns, after)
    ensures YieldsKnown(begun, caught, turns, after)
  {
    if turns == [] {
      FirstReadIsLog(begun, caught, after);
    } else {
      var init, turn := turns[..|turns| - 1], turns[|turns| - 1];
      FollowIsLog(begun, caught, init, after, terminal);
      FollowTurn(begun, caught, turns, after, terminal);
    }
  }

  lemma FollowTurn(begun: State, caught: State, turns: seq<Turn>, after: Option<Id>, terminal: bool)
    requires turns != [] && Happened(begun, caught, turns, after, terminal) && Intact(begun, caught, turns, after)
    requires YieldsKnown(begun, caught, turns[..|turns| - 1], after)
    ensures YieldsKnown(begun, caught, turns, after)
  {
    var init, turn := turns[..|turns| - 1], turns[|turns| - 1];
    LaterLog(Latest(caught, init), turn);
    ReadOn(Known(begun, caught, init, after), Known(begun, caught, turns, after), turn, after,
           Output(begun, caught, init, after), Output(begun, caught, turns, after));
  }

  lemma FirstReadIsLog(s: State, t: State, after: Option<Id>)
    requires Evolves(s, t) && FirstExact(s, t, after)
    ensures var known := FirstKnown(s, t, after);
            s.all <= known <= t.all && Shown(EventLog.Read(s.stream, t.table, after)) == Shown(After(known, after))
  {
    if HasTerminal(EventLog.Read(s.stream, t.table, after)) {
      FirstReadEnds(s, t, after);
    } else {
      FirstReadCovers(s, t, after);
    }
  }

  lemma FirstReadCovers(s: State, t: State, after: Option<Id>)
    requires Evolves(s, t) && ReadExact(s, t, after)
    ensures var known := t.all[..Covered(s, t, after)];
            s.all <= known <= t.all && EventLog.Read(s.stream, t.table, after) == After(known, after)
  {
    ReadIsLogIff(s, t, after);
  }

  lemma FirstReadEnds(s: State, t: State, after: Option<Id>)
    requires Evolves(s, t) && ExactToEnd(s, t, after) && HasTerminal(EventLog.Read(s.stream, t.table, after))
    ensures Shown(EventLog.Read(s.stream, t.table, after)) == Shown(After(t.all, after))
  {
    ReadSound(s, t, after);
    ToEndMeans(s, t, after);
    ShownToEnd(t.all, EventLog.Read(s.stream, t.table, after), after);
  }

  // ---- A first read that holds a terminal event ----

  lemma ReadSound(s: State, t: State, after: Option<Id>)
    requires Evolves(s, t)
    ensures var live, read := After(s.stream, after), EventLog.Read(s.stream, t.table, after);
            && Ordered(read) && (forall e :: e in read ==> e in t.all)
            && forall e :: e in read <==> Fetched(t, after, live, e) || e in live
  {
    LiveIsSuffix(s, after);
    RowsAre(s, t, after);
    OrderedConcat(RowsOf(s, t, after), After(s.stream, after));
  }

  lemma OrderedConcat(a: seq<Entry>, b: seq<Entry>)
    requires Ordered(a) && Ordered(b) && forall e :: e in a ==> BeforeLive(e, b)
    ensures Ordered(a + b)
  {
    forall i, j | 0 <= i < j < |a + b| ensures Less((a + b)[i].id, (a + b)[j].id) {
      if i < |a| <= j {
        assert a[i] in a && BeforeLive(a[i], b);
        assert j == |a| || Less(b[0].id, b[j - |a|].id);
      }
    }
  }

  /** All there is past the cursor up to the first terminal event read has been read. */
  ghost predicate ToEnd(all: seq<Entry>, read: seq<Entry>, after: Option<Id>) {
    var shown := Shown(read);
    && (forall e :: e in shown ==> Past(e.id, after))
    && (forall e :: e in all && Past(e.id, after) && e !in read ==> shown != [] && Less(shown[|shown| - 1].id, e.id))
  }

  lemma ToEndMeans(s: State, t: State, after: Option<Id>)
    requires Evolves(s, t) && HasTerminal(EventLog.Read(s.stream, t.table, after))
    ensures ToEnd(t.all, EventLog.Read(s.stream, t.table, after), after) <==> ExactToEnd(s, t, after)
  {
    var live, read := After(s.stream, after), EventLog.Read(s.stream, t.table, after);
    var shown := Shown(read);
    ShownShape(read);
    forall e
      ensures Missed(t, after, live, e) ==> e in t.all && Past(e.id, after) && e !in read
      ensures e in t.all && Past(e.id, after) && e !in read ==>
                Missed(t, after, live, e) || Less(shown[|shown| - 1].id, e.id)
    {
      MissedIsUnread(s, t, after, e, shown[|shown| - 1]);
    }
  }

  lemma MissedIsUnread(s: State, t: State, after: Option<Id>, e: Entry, z: Entry)
    requires Evolves(s, t) && z in EventLog.Read(s.stream, t.table, after)
    ensures var live, read := After(s.stream, after), EventLog.Read(s.stream, t.table, after);
            && (Missed(t, after, live, e) ==> e in t.all && Past(e.id, after) && e !in read)
            && (e in t.all && Past(e.id, after) && e !in read ==> Missed(t, after, live, e) || Less(z.id, e.id))
  {
    ReadSound(s, t, after);
    LiveIsSuffix(s, after);
    if e in After(s.stream, after) {
      NotBeforeLive(After(s.stream, after), e);
    }
    if e in t.all && e !in EventLog.Read(s.stream, t.table, after) {
      UnreadIsLater(s, t, after, e, z);
    }
  }

  lemma NotBeforeLive(live: seq<Entry>, e: Entry)
    requires Ordered(live) && e in live
    ensures !BeforeLive(e, live)
  {}

  /** An event that was not read is missing below what the stream returned, or was appended after it was read. */
  lemma UnreadIsLater(s: State, t: State, after: Option<Id>, e: Entry, z: Entry)
    requires Evolves(s, t) && e in t.all && e !in After(s.stream, after)
    requires z in EventLog.Read(s.stream, t.table, after)
    ensures BeforeLive(e, After(s.stream, after)) || Less(z.id, e.id)
  {
    var live := After(s.stream, after);
    LiveIsSuffix(s, after);
    if live != [] && !Less(e.id, live[0].id) {
      var m := |s.all| - |live|;
      var i :| 0 <= i < |t.all| && t.all[i] == e;
      assert t.all[m] == live[0];
      PositionByOrder(t.all, i, m);
      InSuffix(t.all, s.all, live, i);
      ReadBelow(s, t, after, i, z);
    }
  }

  lemma InSuffix(all: seq<Entry>, part: seq<Entry>, live: seq<Entry>, i: nat)
    requires part <= all && Suffix(live, part) && |part| - |live| <= i
    ensures i < |part| ==> all[i] in live
  {
    if i < |part| {
      assert live[i - (|part| - |live|)] == part[i];
    }
  }

  lemma ReadBelow(s: State, t: State, after: Option<Id>, i: nat, z: Entry)
    requires Evolves(s, t) && After(s.stream, after) != [] && |s.all| <= i < |t.all|
    requires z in EventLog.Read(s.stream, t.table, after)
    ensures Less(z.id, t.all[i].id)
  {
    var live := After(s.stream, after);
    LiveIsSuffix(s, after);
    RowsAre(s, t, after);
    assert live[0] in live;
    SuffixBelow(t.all, s.all, live, i, live[0]);
    if z in live {
      SuffixBelow(t.all, s.all, live, i, z);
    } else {
      assert BeforeLive(z, live);
    }
  }

  lemma SuffixBelow(all: seq<Entry>, part: seq<Entry>, live: seq<Entry>, i: nat, z: Entry)
    requires Ordered(all) && part <= all && Suffix(live, part) && |part| <= i < |all| && z in live
    ensures Less(z.id, all[i].id)
  {
    var j :| 0 <= j < |live| && live[j] == z;
    assert all[|part| - |live| + j] == z;
  }

  lemma UpToMember(s: seq<Entry>, m: nat, e: Entry)
    requires Ordered(s) && m < |s|
    ensures e in s[..m + 1] <==> e in s && !Less(s[m].id, e.id)
  {
    assert s[..m + 1] == s[..m] + [s[m]];
    PrefixMember(s, m, e);
    if e in s {
      var i :| 0 <= i < |s| && s[i] == e;
      PositionByOrder(s, m, i);
      PositionByOrder(s, i, m);
    }
  }

  /** What is shown of an ordered log with a terminal event is all of it up to the last entry shown. */
  lemma ShownMember(read: seq<Entry>, e: Entry)
    requires Ordered(read) && HasTerminal(read)
    ensures var shown := Shown(read);
            shown != [] && (e in shown <==> e in read && !Less(shown[|shown| - 1].id, e.id))
  {
    ShownShape(read);
    var shown := Shown(read);
    UpToMember(read, |shown| - 1, e);
    assert read[..|shown|] == shown;
  }

  lemma ShownTwice(read: seq<Entry>, more: seq<Entry>)
    requires HasTerminal(read)
    ensures Shown(Shown(read) + more) == Shown(read)
  {
    ShownShape(read);
    var shown := Shown(read);
    LastIsMember(shown);
    assert read == shown + read[|shown|..];
    ShownConcat(shown, read[|shown|..]);
    ShownConcat(shown, more);
  }

  lemma ShownToEnd(all: seq<Entry>, read: seq<Entry>, after: Option<Id>)
    requires Ordered(all) && Ordered(read) && HasTerminal(read) && ToEnd(all, read, after)
    requires forall e :: e in read ==> e in all
    ensures Shown(read) == Shown(After(all, after))
  {
    var shown := Shown(read);
    ShownShape(read);
    AfterOrdered(all, after);
    forall e ensures e in shown <==> e in After(all, after) && !Less(shown[|shown| - 1].id, e.id) {
      ShownIsPast(all, read, after, e);
    }
    SameShown(read, After(all, after));
  }

  /** Logs that agree up to the first terminal event of the one show the same. */
  lemma SameShown(read: seq<Entry>, past: seq<Entry>)
    requires Ordered(read) && Ordered(past) && HasTerminal(read)
    requires var shown := Shown(read);
             shown != [] && forall e :: e in shown <==> e in past && !Less(shown[|shown| - 1].id, e.id)
    ensures Shown(read) == Shown(past)
  {
    var shown := Shown(read);
    assert shown[|shown| - 1] in shown;
    var m :| 0 <= m < |past| && past[m] == shown[|shown| - 1];
    ShownIsPrefix(read, past, m);
    SplitAt(past, m + 1);
    ShownTwice(read, past[m + 1..]);
  }

  lemma SplitAt(s: seq<Entry>, k: nat)
    requires k <= |s|
    ensures s == s[..k] + s[k..]
  {}

  lemma ShownIsPast(all: seq<Entry>, read: seq<Entry>, after: Option<Id>, e: Entry)
    requires Ordered(read) && HasTerminal(read) && ToEnd(all, read, after) && (e in read ==> e in all)
    ensures var shown := Shown(read);
            shown != [] && (e in shown <==> e in After(all, after) && !Less(shown[|shown| - 1].id, e.id))
  {
    ShownMember(read, e);
    AfterMember(all, after, e);
  }

  lemma ShownIsPrefix(read: seq<Entry>, past: seq<Entry>, m: nat)
    requires Ordered(read) && Ordered(past) && m < |past|
    requires forall e :: e in Shown(read) <==> e in past && !Less(past[m].id, e.id)
    ensures Shown(read) == past[..m + 1]
  {
    var shown := Shown(read);
    ShownShape(read);
    forall e ensures e in shown <==> e in past[..m + 1] {
      UpToMember(past, m, e);
    }
    PrefixOrdered(past, m + 1);
    assert shown == read[..|shown|];
    PrefixOrdered(read, |shown|);
    OrderedUnique(shown, past[..m + 1]);
  }

  lemma StretchIsToEnd(all: seq<Entry>, read: seq<Entry>, after: Option<Id>, low: nat, k: int)
    requires Ordered(all) && Ordered(read) && HasTerminal(read) && Stretch(Shown(read), all, after, low, k)
    ensures ToEnd(all, read, after)
  {
    var past := After(all[..k], after);
    ShownTerminal(read);
    ShownTerminal(past);
    PastToEnd(all, k, past, after);
    forall e | e !in read ensures e !in Shown(past) {
      ShownIn(read, e);
    }
  }

  lemma ShownIn(s: seq<Entry>, e: Entry)
    ensures e in Shown(s) ==> e in s
  {
    ShownShape(s);
  }

  lemma PastToEnd(all: seq<Entry>, k: nat, past: seq<Entry>, after: Option<Id>)
    requires Ordered(all) && k <= |all| && past == After(all[..k], after) && HasTerminal(past)
    ensures var shown := Shown(past);
            && (forall e :: e in shown ==> Past(e.id, after))
            && (forall e :: e in all && Past(e.id, after) && e !in shown ==>
                  shown != [] && Less(shown[|shown| - 1].id, e.id))
  {
    PrefixOrdered(all, k);
    AfterOrdered(all[..k], after);
    ShownShape(past);
    forall e | e in Shown(past) ensures Past(e.id, after) {
      AfterMember(all[..k], after, e);
    }
    forall e | e in all && Past(e.id, after) && e !in Shown(past)
      ensures Less(Shown(past)[|Shown(past)| - 1].id, e.id)
    {
      UnshownIsLater(all, k, past, after, e);
    }
  }

  lemma UnshownIsLater(all: seq<Entry>, k: nat, past: seq<Entry>, after: Option<Id>, e: Entry)
    requires Ordered(all) && k <= |all| && past == After(all[..k], after) && HasTerminal(past) && Ordered(past)
    requires e in all && Past(e.id, after)
    ensures var shown := Shown(past); shown != [] && (e in shown || Less(shown[|shown| - 1].id, e.id))
  {
    ShownMember(past, e);
    ShownShape(past);
    AfterMember(all[..k], after, e);
    var z := Shown(past)[|Shown(past)| - 1];
    AfterMember(all[..k], after, z);
    if e !in all[..k] {
      LaterThan(all, k, z, e);
    }
  }

  lemma LaterThan(all: seq<Entry>, k: nat, z: Entry, e: Entry)
    requires Ordered(all) && k <= |all| && z in all[..k] && e in all && e !in all[..k]
    ensures Less(z.id, e.id)
  {
    var j :| 0 <= j < |all| && all[j] == e;
    var i :| 0 <= i < k && all[..k][i] == z;
    assert all[i] == z && j >= k;
  }

  /** One turn on: if it skips nothing, what has been yielded is what is known. */
  lemma ReadOn(known: seq<Entry>, next: seq<Entry>, turn: Turn, after: Option<Id>, before: seq<Entry>, out: seq<Entry>)
    requires Ordered(turn.at.all) && known <= turn.at.all
    requires before == Shown(After(known, after)) && !HasTerminal(before)
    requires var cursor := Cursor(after, before);
             var batch := After(turn.at.stream, cursor);
             && (Quiet(turn, cursor) || CaughtUp(turn, cursor))
             && out == (if turn.ended then before else before + Shown(batch))
             && next == if turn.ended || !CaughtUp(turn, cursor) then known else turn.at.all
    ensures known <= next <= turn.at.all && out == Shown(After(next, after))
  {
    ShownTerminal(After(known, after));
    ShownWhole(After(known, after));
    ShownOn(known, turn.at.all, after);
    assert Shown([]) == [];
  }

  // ---- An output that is a stretch of the log comes from such reads ----

  /** What the log past the start shows when it has k events, at least `low`. */
  ghost predicate Stretch(out: seq<Entry>, all: seq<Entry>, after: Option<Id>, low: nat, k: int) {
    low <= k <= |all| && out == Shown(After(all[..k], after))
  }

  /** What is yielded is the log past the start as it was when it had k events, up to a terminal event. */
  ghost predicate YieldsUpTo(begun: State, caught: State, turns: seq<Turn>, after: Option<Id>, k: int) {
    Stretch(Output(begun, caught, turns, after), Latest(caught, turns).all, after, |begun.all|, k)
  }

  /** If only the first part of a log has been yielded, that part is as long as the log was then. */
  lemma ShorterLog(all: seq<Entry>, n: nat, k: nat, after: Option<Id>)
    requires Ordered(all) && n <= k <= |all|
    requires forall e :: e in After(all[..k], after) ==> e in all[..n]
    ensures After(all[..n], after) == After(all[..k], after)
  {
    var a, b := After(all[..n], after), After(all[..k], after);
    PrefixOrdered(all, n);
    PrefixOrdered(all, k);
    AfterOrdered(all[..n], after);
    AfterOrdered(all[..k], after);
    forall e ensures e in a <==> e in b {
      AfterMember(all[..n], after, e);
      AfterMember(all[..k], after, e);
      InLonger(all, n, k, e);
    }
    OrderedUnique(a, b);
  }

  /** Two ends of a log that start with the same entry are the same. */
  lemma SameSuffix(all: seq<Entry>, a: seq<Entry>, b: seq<Entry>)
    requires Ordered(all) && Suffix(a, all) && Suffix(b, all) && a != [] && b != [] && a[0] == b[0]
    ensures a == b
  {
    PositionByOrder(all, |all| - |a|, |all| - |b|);
  }

  /**
   * A batch that continues what has been yielded is all there is past the cursor, and what was yielded before is the
   * log up to it.
   */
  lemma BatchContinues(all: seq<Entry>, k: nat, after: Option<Id>, before: seq<Entry>, batch: seq<Entry>)
    requires Ordered(all) && k <= |all| && Suffix(batch, all) && batch != []
    requires before + [batch[0]] <= After(all[..k], after)
    ensures var p := |all| - |batch|;
            && all[p] == batch[0] && Past(all[p].id, after) && before == After(all[..p], after)
            && batch == After(all, Cursor(after, before))
  {
    var p := |all| - |batch|;
    YieldedUpTo(all, k, after, before, p);
    RestFrom(all, p, after, before);
    AfterIsSuffix(all, Cursor(after, before));
    SameSuffix(all, batch, After(all, Cursor(after, before)));
  }

  lemma YieldedUpTo(all: seq<Entry>, k: nat, after: Option<Id>, before: seq<Entry>, p: nat)
    requires Ordered(all) && k <= |all| && p < |all|
    requires before + [all[p]] <= After(all[..k], after)
    ensures p < k && before == After(all[..p], after) && Past(all[p].id, after)
  {
    var part := After(all[..k], after);
    PrefixOrdered(all, k);
    AfterIsSuffix(all[..k], after);
    var i := k - |part| + |before|;
    assert part[|before|] == all[..k][i] == all[i] == all[p];
    PositionByOrder(all, i, p);
    UpToPosition(all, k, p, after);
    assert before == part[..|before|];
    AfterMember(all[..k], after, all[p]);
  }

  lemma RestFrom(all: seq<Entry>, p: nat, after: Option<Id>, before: seq<Entry>)
    requires Ordered(all) && p < |all| && before == After(all[..p], after) && Past(all[p].id, after)
    ensures var rest := After(all, Cursor(after, before)); rest != [] && rest[0] == all[p]
  {
    CursorSplit(all[..p], all, after);
    AfterOneMore(all, p, after);
    AfterPrefix(all[..p + 1], all, after);
    FirstOfRest(before, all[p], After(all, Cursor(after, before)));
  }

  lemma AfterOneMore(all: seq<Entry>, p: nat, after: Option<Id>)
    requires p < |all| && Past(all[p].id, after)
    ensures After(all[..p + 1], after) == After(all[..p], after) + [all[p]]
  {
    assert all[..p + 1][..p] == all[..p];
  }

  lemma FirstOfRest(before: seq<Entry>, e: Entry, rest: seq<Entry>)
    requires before + [e] <= before + rest
    ensures rest != [] && rest[0] == e
  {
    assert (before + rest)[|before|] == (before + [e])[|before|];
  }

  /** The entries read up to a position inside what has been read. */
  lemma UpToPosition(all: seq<Entry>, k: nat, p: nat, after: Option<Id>)
    requires Ordered(all) && k <= |all| && k - |After(all[..k], after)| <= p < k
    ensures After(all[..p], after) == After(all[..k], after)[..p - (k - |After(all[..k], after)|)]
  {
    assert all[..k] == all[..p] + all[p..k];
    AfterConcat(all[..p], all[p..k], after);
    PastFrom(all, k, p, after);
    AfterAll(all[p..k], after);
  }

  lemma PastFrom(all: seq<Entry>, k: nat, p: nat, after: Option<Id>)
    requires Ordered(all) && k <= |all| && k - |After(all[..k], after)| <= p < k
    ensures forall e :: e in all[p..k] ==> Past(e.id, after)
  {
    var part := After(all[..k], after);
    PrefixOrdered(all, k);
    AfterIsSuffix(all[..k], after);
    forall e | e in all[p..k] ensures Past(e.id, after) {
      var i :| 0 <= i < k - p && all[p..k][i] == e;
      assert part[p + i - (k - |part|)] == all[..k][p + i] == e;
      AfterMember(all[..k], after, e);
    }
  }

  /** Whatever is yielded has been appended. */
  lemma {:induction false} OutputInLog(
    begun: State, caught: State, turns: seq<Turn>, after: Option<Id>, terminal: bool, e: Entry)
    requires Happened(begun, caught, turns, after, terminal) && e in Output(begun, caught, turns, after)
    ensures e in Latest(caught, turns).all
    decreases |turns|
  {
    if turns == [] {
      ReadInLog(begun, caught, after, e);
    } else {
      var init, turn := turns[..|turns| - 1], turns[|turns| - 1];
      var before := Output(begun, caught, init, after);
      LaterLog(Latest(caught, init), turn);
      if e in before {
        OutputInLog(begun, caught, init, after, terminal, e);
      } else {
        ShownShape(After(turn.at.stream, Cursor(after, before)));
        AfterMember(turn.at.stream, Cursor(after, before), e);
      }
    }
  }

  lemma ReadInLog(s: State, t: State, after: Option<Id>, e: Entry)
    requires Evolves(s, t) && e in Shown(EventLog.Read(s.stream, t.table, after))
    ensures e in t.all
  {
    LiveIsSuffix(s, after);
    ShownShape(EventLog.Read(s.stream, t.table, after));
    ReplayIs(s, t, after, e);
    AfterMember(s.stream, after, e);
  }

  /** Until a terminal event everything the stream held past the start at the first read has been yielded. */
  lemma {:induction false} LiveIsYielded(
    begun: State, caught: State, turns: seq<Turn>, after: Option<Id>, terminal: bool, e: Entry)
    requires Happened(begun, caught, turns, after, terminal) && !HasTerminal(Output(begun, caught, turns, after))
    requires e in begun.stream && Past(e.id, after)
    ensures e in Output(begun, caught, turns, after)
    decreases |turns|
  {
    if turns == [] {
      var read := EventLog.Read(begun.stream, caught.table, after);
      ShownTerminal(read);
      ShownWhole(read);
      AfterMember(begun.stream, after, e);
    } else {
      LiveIsYielded(begun, caught, turns[..|turns| - 1], after, terminal, e);
    }
  }

  /** What was appended before the first read and is in the stream now was in the stream then. */
  lemma StreamKept(s: State, t: State, p: nat)
    requires Evolves(s, t) && p < |t.all| && t.all[p] in t.stream
    ensures p < |s.all| ==> t.all[p] in s.stream
  {
    var j :| 0 <= j < |t.stream| && t.stream[j] == t.all[p];
    assert t.all[Dropped(t) + j] == t.all[p];
    PositionByOrder(t.all, p, Dropped(t) + j);
    if p < |s.all| {
      assert s.stream[p - Dropped(s)] == s.all[p];
    }
  }

  /** An output that is a stretch of a longer log is one of any earlier log that holds it. */
  lemma EarlierLog(latest: seq<Entry>, all: seq<Entry>, out: seq<Entry>, after: Option<Id>, low: nat, k: int)
    returns (j: int)
    requires Ordered(all) && latest <= all && low <= |latest| && !HasTerminal(out)
    requires Stretch(out, all, after, low, k) && forall e :: e in out ==> e in latest
    ensures Stretch(out, latest, after, low, j)
  {
    ShownTerminal(After(all[..k], after));
    ShownWhole(After(all[..k], after));
    j := if |latest| <= k then |latest| else k;
    assert all[..|latest|] == latest;
    if |latest| <= k {
      ShorterLog(all, |latest|, k, after);
    }
    assert latest[..j] == all[..j];
  }

  /** An output that is a stretch of the log comes from reads none of which skipped anything. */
  lemma {:induction false} LogIsIntact(
    begun: State, caught: State, turns: seq<Turn>, after: Option<Id>, terminal: bool, k: int)
    requires Happened(begun, caught, turns, after, terminal)
    requires YieldsUpTo(begun, caught, turns, after, k)
    ensures Intact(begun, caught, turns, after)
    decreases |turns|
  {
    if turns == [] {
      FirstStretch(begun, caught, after, k);
    } else {
      var init, turn := turns[..|turns| - 1], turns[|turns| - 1];
      SofarHolds(begun, caught, init, after, terminal);
      var j := TurnBack(begun, Latest(caught, init), turn, after, Output(begun, caught, init, after),
                        Output(begun, caught, turns, after), k);
      LogIsIntact(begun, caught, init, after, terminal, j);
    }
  }

  lemma FirstStretch(s: State, t: State, after: Option<Id>, k: int)
    requires Evolves(s, t) && Stretch(Shown(EventLog.Read(s.stream, t.table, after)), t.all, after, |s.all|, k)
    ensures FirstExact(s, t, after)
  {
    var read, part := EventLog.Read(s.stream, t.table, after), After(t.all[..k], after);
    if HasTerminal(read) {
      ReadSound(s, t, after);
      StretchIsToEnd(t.all, read, after, |s.all|, k);
      ToEndMeans(s, t, after);
    } else {
      ShownWhole(read);
      ShownTerminal(part);
      ShownWhole(part);
      assert ReadsUpTo(s, t, after, k);
      ReadIsLogIff(s, t, after);
    }
  }

  /** What a subscription has yielded so far: appended events, with all the stream held past the start at first. */
  ghost predicate Sofar(begun: State, latest: State, after: Option<Id>, out: seq<Entry>) {
    && Evolves(begun, latest) && !HasTerminal(out)
    && (forall e :: e in out ==> e in latest.all)
    && (forall e :: e in begun.stream && Past(e.id, after) ==> e in out)
  }

  lemma SofarHolds(begun: State, caught: State, turns: seq<Turn>, after: Option<Id>, terminal: bool)
    requires Happened(begun, caught, turns, after, terminal) && !HasTerminal(Output(begun, caught, turns, after))
    ensures Sofar(begun, Latest(caught, turns), after, Output(begun, caught, turns, after))
  {
    LogSinceBegun(begun, caught, turns, after, terminal);
    forall e | e in Output(begun, caught, turns, after) ensures e in Latest(caught, turns).all {
      OutputInLog(begun, caught, turns, after, terminal, e);
    }
    forall e | e in begun.stream && Past(e.id, after) ensures e in Output(begun, caught, turns, after) {
      LiveIsYielded(begun, caught, turns, after, terminal, e);
    }
  }

  /** One turn back: the output so far is a stretch of the log, and the turn skipped nothing. */
  lemma TurnBack(
    begun: State, latest: State, turn: Turn, after: Option<Id>, before: seq<Entry>, out: seq<Entry>, k: int)
    returns (j: int)
    requires Sofar(begun, latest, after, before) && TurnFollows(latest, turn)
    requires out == if turn.ended then before else before + Shown(After(turn.at.stream, Cursor(after, before)))
    requires Stretch(out, turn.at.all, after, |begun.all|, k)
    ensures Stretch(before, latest.all, after, |begun.all|, j)
    ensures Quiet(turn, Cursor(after, before)) || CaughtUp(turn, Cursor(after, before))
  {
    var p := k;
    if Quiet(turn, Cursor(after, before)) {
      assert Shown([]) == [];
    } else {
      SinceBegun(begun, latest, turn);
      p := FullBatch(begun, turn.at, after, before, k);
    }
    LaterLog(latest, turn);
    j := EarlierLog(latest.all, turn.at.all, before, after, |begun.all|, p);
  }

  lemma SinceBegun(begun: State, latest: State, turn: Turn)
    requires Evolves(begun, latest) && TurnFollows(latest, turn)
    ensures Evolves(begun, turn.at)
  {
    EvolvesTransitive(begun, latest, turn.probed);
    EvolvesTransitive(begun, turn.probed, turn.asked);
    EvolvesTransitive(begun, turn.asked, turn.at);
  }

  lemma {:induction false} LogSinceBegun(
    begun: State, caught: State, turns: seq<Turn>, after: Option<Id>, terminal: bool)
    requires Happened(begun, caught, turns, after, terminal)
    ensures Evolves(begun, Latest(caught, turns))
    decreases |turns|
  {
    if turns == [] {
    } else {
      var init, turn := turns[..|turns| - 1], turns[|turns| - 1];
      LogSinceBegun(begun, caught, init, after, terminal);
      SinceBegun(begun, Latest(caught, init), turn);
    }
  }

  /** A batch that continues the output is the rest of the log, all of it new since the start. */
  lemma FullBatch(begun: State, at: State, after: Option<Id>, before: seq<Entry>, k: int) returns (p: int)
    requires Evolves(begun, at) && !HasTerminal(before) && After(at.stream, Cursor(after, before)) != []
    requires forall e :: e in begun.stream && Past(e.id, after) ==> e in before
    requires Stretch(before + Shown(After(at.stream, Cursor(after, before))), at.all, after, |begun.all|, k)
    ensures Stretch(before, at.all, after, |begun.all|, p)
    ensures After(at.stream, Cursor(after, before)) == After(at.all, Cursor(after, before))
  {
    var batch := After(at.stream, Cursor(after, before));
    LiveIsSuffix(at, Cursor(after, before));
    BatchYielded(at.all, k, after, before, batch);
    BatchContinues(at.all, k, after, before, batch);
    AfterMember(at.stream, Cursor(after, before), batch[0]);
    p := |at.all| - |batch|;
    NewSinceStart(begun, at, after, before, p);
    ShownWhole(before);
  }

  lemma BatchYielded(all: seq<Entry>, k: nat, after: Option<Id>, before: seq<Entry>, batch: seq<Entry>)
    requires k <= |all| && batch != [] && before + Shown(batch) == Shown(After(all[..k], after))
    ensures before + [batch[0]] <= After(all[..k], after)
  {
    ShownShape(After(all[..k], after));
    assert Shown(batch)[0] == batch[0];
    assert before + [batch[0]] <= before + Shown(batch);
  }

  lemma NewSinceStart(begun: State, at: State, after: Option<Id>, before: seq<Entry>, p: nat)
    requires forall e :: e in begun.stream && Past(e.id, after) ==> e in before
    requires Evolves(begun, at) && p < |at.all| && at.all[p] in at.stream && Past(at.all[p].id, after)
    requires before == After(at.all[..p], after)
    ensures |begun.all| <= p
  {
    var e := at.all[p];
    AfterMember(at.all[..p], after, e);
    PrefixMember(at.all, p, e);
    StreamKept(begun, at, p);
  }

  /**
   * A subscription yields a stretch of the log, from its start on and up to a terminal event, exactly when no read
   * skipped anything.
   */
  lemma FollowIsLogIff(begun: State, caught: State, turns: seq<Turn>, after: Option<Id>, terminal: bool)
    requires Happened(begun, caught, turns, after, terminal)
    ensures (exists k :: YieldsUpTo(begun, caught, turns, after, k)) <==> Intact(begun, caught, turns, after)
  {
    if k :| YieldsUpTo(begun, caught, turns, after, k) {
      LogIsIntact(begun, caught, turns, after, terminal, k);
    }
    if Intact(begun, caught, turns, after) {
      IntactYields(begun, caught, turns, after, terminal);
    }
  }

  lemma YieldsIsStretch(
    begun: State, caught: State, turns: seq<Turn>, after: Option<Id>, out: seq<Entry>, all: seq<Entry>)
    requires out == Output(begun, caught, turns, after) && all == Latest(caught, turns).all
    ensures (exists k :: YieldsUpTo(begun, caught, turns, after, k)) <==>
            (exists k :: Stretch(out, all, after, |begun.all|, k))
  {
    if k :| Stretch(out, all, after, |begun.all|, k) {
      assert YieldsUpTo(begun, caught, turns, after, k);
    }
  }

  lemma IntactYields(begun: State, caught: State, turns: seq<Turn>, after: Option<Id>, terminal: bool)
    requires Happened(begun, caught, turns, after, terminal) && Intact(begun, caught, turns, after)
    ensures YieldsUpTo(begun, caught, turns, after, |Known(begun, caught, turns, after)|)
  {
    FollowIsLog(begun, caught, turns, after, terminal);
    UpToLength(Known(begun, caught, turns, after), Latest(caught, turns).all);
  }

  lemma UpToLength(known: seq<Entry>, all: seq<Entry>)
    requires known <= all
    ensures known == all[..|known|]
  {}

  // ---- Resuming ----

  /** A subscription none of whose reads skipped anything, and what it yielded. */
  ghost predicate Skipless(
    begun: State, caught: State, turns: seq<Turn>, after: Option<Id>, terminal: bool, out: seq<Entry>): (ok: bool)
    ensures ok ==> Evolves(begun, caught)
  {
    && Happened(begun, caught, turns, after, terminal) && Intact(begun, caught, turns, after)
    && out == Output(begun, caught, turns, after)
  }

  /**
   * Disconnect after any non-terminal entry and subscribe again later from its id: what the first subscription had
   * yielded by then and what the second one yields are together the log past the first start, up to a terminal event.
   */
  lemma ResumeWithoutLoss(
    begun: State, caught: State, turns: seq<Turn>, after: Option<Id>, terminal: bool, first: seq<Entry>, k: nat,
    again: State, recaught: State, more: seq<Turn>, ended: bool, second: seq<Entry>)
    requires Skipless(begun, caught, turns, after, terminal, first) && k < |first| && !first[k].event.terminal
    requires Skipless(again, recaught, more, Some(first[k].id), ended, second) && Evolves(Latest(caught, turns), again)
    ensures var known := Known(again, recaught, more, Some(first[k].id));
            first[..k + 1] + second == Shown(After(known, after))
  {
    var before := YieldedLog(begun, caught, turns, after, terminal, first);
    var later := YieldedLog(again, recaught, more, Some(first[k].id), ended, second);
    ResumedLog(before, later, Latest(recaught, more).all, after, k, first, second);
  }

  lemma YieldedLog(begun: State, caught: State, turns: seq<Turn>, after: Option<Id>, terminal: bool, out: seq<Entry>)
    returns (known: seq<Entry>)
    requires Skipless(begun, caught, turns, after, terminal, out)
    ensures known == Known(begun, caught, turns, after) && out == Shown(After(known, after))
    ensures begun.all <= known <= Latest(caught, turns).all && Ordered(Latest(caught, turns).all)
  {
    known := Known(begun, caught, turns, after);
    FollowIsLog(begun, caught, turns, after, terminal);
    HappenedValid(begun, caught, turns, after, terminal);
  }

  // ---- Closing ----

  lemma NewestPast(s: seq<Entry>, cursor: Option<Id>)
    requires Ordered(s) && s != []
    ensures After(s, cursor) == [] <==> !Past(s[|s| - 1].id, cursor)
  {
    AfterMember(s, cursor, s[|s| - 1]);
    if !Past(s[|s| - 1].id, cursor) {
      NothingPast(s, cursor);
    }
  }

  /** The last row is the newest archived event. */
  lemma LastRowIs(t: State)
    requires Valid(t) && t.table != map[]
    ensures var rows := Replay(t.table, None, None); rows != [] && LastArchived(t, rows[|rows| - 1])
  {
    var rows := Replay(t.table, None, None);
    if rows == [] {
      NoRows(t);
    }
    var e := rows[|rows| - 1];
    assert e in rows;
    RowInLog(t, e);
    ReplayMember(t.table, None, None, e);
    ReplayOrdered(t.table, None, None);
    forall x | x in t.all && Pack(x.id) in t.table ensures !Less(e.id, x.id) {
      ArchivedIsRow(t, x);
      NotAboveLast(rows, x);
    }
  }

  lemma NotAboveLast(s: seq<Entry>, e: Entry)
    requires Ordered(s) && e in s
    ensures !Less(s[|s| - 1].id, e.id)
  {
    var i :| 0 <= i < |s| && s[i] == e;
    PositionByOrder(s, |s| - 1, i);
  }

  lemma OneLastArchived(t: State, a: Entry, b: Entry)
    requires Valid(t) && LastArchived(t, a) && LastArchived(t, b)
    ensures a == b
  {
    var i :| 0 <= i < |t.all| && t.all[i] == a;
    var j :| 0 <= j < |t.all| && t.all[j] == b;
    PositionByOrder(t.all, i, j);
    PositionByOrder(t.all, j, i);
  }

  /** _ended says so exactly when the subscription is to be closed. */
  lemma EndedIff(s: State, t: State, cursor: Option<Id>, terminal: bool)
    requires Evolves(s, t)
    ensures HasEnded(s.stream, t.table, cursor, terminal) <==> Closed(s, t, cursor, terminal)
  {
    if s.stream != [] {
      LastOfStream(s);
      NewestPast(s.all, cursor);
    } else {
      EndedByRowIff(t, cursor, terminal);
    }
  }

  lemma EndedByRowIff(t: State, cursor: Option<Id>, terminal: bool)
    requires Valid(t)
    ensures HasEnded([], t.table, cursor, terminal) <==>
            if t.table == map[] then terminal
            else exists e :: LastArchived(t, e) && e.event.terminal && !Past(e.id, cursor)
  {
    var rows := Replay(t.table, None, None);
    if t.table == map[] {
      EmptyTable(t);
    } else {
      LastRowIs(t);
      LastArchivedIs(t, rows[|rows| - 1], cursor);
    }
  }

  lemma LastArchivedIs(t: State, last: Entry, cursor: Option<Id>)
    requires Valid(t) && LastArchived(t, last)
    ensures (exists e :: LastArchived(t, e) && e.event.terminal && !Past(e.id, cursor)) <==>
            last.event.terminal && !Past(last.id, cursor)
  {
    forall e | LastArchived(t, e) ensures e == last {
      OneLastArchived(t, e, last);
    }
  }

  lemma EmptyTable(t: State)
    requires t.table == map[]
    ensures Replay(t.table, None, None) == []
  {
    var rows := Replay(t.table, None, None);
    HasMember(rows);
    if e :| e in rows {
      ReplayMember(t.table, None, None, e);
    }
  }

  /**
   * What closing a subscription means: an event past the cursor is in neither tier. So none is left if the stream had
   * entries, or if every event is archived.
   */
  lemma EndedMeans(s: State, t: State, cursor: Option<Id>, terminal: bool)
    requires Evolves(s, t) && Closed(s, t, cursor, terminal)
    ensures s.stream != [] ==> After(s.all, cursor) == []
    ensures s.stream == [] ==> forall e :: e in After(t.all, cursor) ==> Pack(e.id) !in t.table
    ensures if s.stream != [] || t.table != map[] then HasTerminal(t.all) else terminal
  {
    if s.stream != [] {
      assert t.all[|s.all| - 1] == s.all[|s.all| - 1];
    } else if t.table != map[] {
      var last :| LastArchived(t, last) && last.event.terminal && !Past(last.id, cursor);
      forall e | e in After(t.all, cursor) ensures Pack(e.id) !in t.table {
        AfterMember(t.all, cursor, e);
      }
    }
  }

  /** An event past the cursor is in neither tier; there is none if the stream had entries. */
  ghost predicate NothingVisible(turn: Turn, cursor: Option<Id>) {
    && (turn.probed.stream != [] ==> After(turn.probed.all, cursor) == [])
    && (turn.probed.stream == [] ==> forall e :: e in After(turn.asked.all, cursor) ==> Pack(e.id) !in turn.asked.table)
  }

  lemma ClosedIsEmpty(begun: State, caught: State, turns: seq<Turn>, after: Option<Id>, terminal: bool)
    requires Happened(begun, caught, turns, after, terminal) && LastEnded(turns)
    ensures NothingVisible(turns[|turns| - 1], Cursor(after, Output(begun, caught, turns, after)))
  {
    var turn := turns[|turns| - 1];
    EndedMeans(turn.probed, turn.asked, Cursor(after, Output(begun, caught, turns, after)), terminal);
  }

  /** The log ends in a terminal event, and that is where the client resumes. */
  ghost predicate AtEnd(all: seq<Entry>, after: Option<Id>) {
    all != [] && all[|all| - 1].event.terminal && after == Some(all[|all| - 1].id)
  }

  ghost predicate EndVisible(turn: Turn) {
    && turn.probed.all != []
    && (turn.probed.stream != [] || Pack(turn.probed.all[|turn.probed.all| - 1].id) in turn.asked.table)
  }

  lemma ReadAtEnd(s: State, t: State, after: Option<Id>)
    requires Evolves(s, t) && t.all == s.all && AtEnd(s.all, after)
    ensures EventLog.Read(s.stream, t.table, after) == []
  {
    var read := EventLog.Read(s.stream, t.table, after);
    var last := s.all[|s.all| - 1];
    assert last in s.all;
    PackedFits(after);
    NewestPast(s.all, after);
    HasMember(read);
    ReadSound(s, t, after);
    forall e | e in read ensures e in After(s.all, after) {
      AfterMember(s.all, after, e);
      AfterMember(s.stream, after, e);
    }
  }

  lemma ClosedAtEnd(s: State, t: State, after: Option<Id>, terminal: bool)
    requires Evolves(s, t) && t.all == s.all && AtEnd(s.all, after)
    requires s.stream != [] || Pack(s.all[|s.all| - 1].id) in t.table
    ensures Closed(s, t, after, terminal)
  {
    NewestPast(s.all, after);
    if s.stream == [] {
      var last := s.all[|s.all| - 1];
      forall x | x in t.all ensures !Less(last.id, x.id) {
        NotAboveLast(t.all, x);
      }
      assert LastArchived(t, last);
    }
  }

  /** The first turn of a subscription, and whether it was the only one. */
  lemma {:induction false} FirstTurn(begun: State, caught: State, turns: seq<Turn>, after: Option<Id>, terminal: bool)
    requires turns != [] && Happened(begun, caught, turns, after, terminal)
    ensures TurnIs(caught, turns[0], Cursor(after, Output(begun, caught, [], after)), terminal)
    ensures turns[0].at.all <= Latest(caught, turns).all
    ensures |turns| > 1 ==> !turns[0].ended
    decreases |turns|
  {
    var init := turns[..|turns| - 1];
    if init == [] {
    } else {
      FirstTurn(begun, caught, init, after, terminal);
      LaterLog(Latest(caught, init), turns[|turns| - 1]);
      assert |init| == 1 ==> init[|init| - 1] == turns[0];
    }
  }

  /**
   * A client that resumes at the last, terminal event, while the stream or the archive still has it and nobody appends,
   * gets nothing more, and the first turn closes its subscription.
   */
  lemma ResumedAtEnd(begun: State, caught: State, turns: seq<Turn>, after: Option<Id>, terminal: bool)
    requires Happened(begun, caught, turns, after, terminal) && AtEnd(begun.all, after)
    requires Latest(caught, turns).all == begun.all && turns != [] && EndVisible(turns[0])
    ensures |turns| == 1 && LastEnded(turns) && Output(begun, caught, turns, after) == []
  {
    FirstTurn(begun, caught, turns, after, terminal);
    EndsAtOnce(begun, caught, turns, after, terminal);
  }

  lemma EndsAtOnce(begun: State, caught: State, turns: seq<Turn>, after: Option<Id>, terminal: bool)
    requires turns != [] && Evolves(begun, caught) && AtEnd(begun.all, after) && EndVisible(turns[0])
    requires TurnIs(caught, turns[0], Cursor(after, Output(begun, caught, [], after)), terminal)
    requires turns[0].at.all <= Latest(caught, turns).all && Latest(caught, turns).all == begun.all
    requires |turns| > 1 ==> !turns[0].ended
    ensures |turns| == 1 && LastEnded(turns) && Output(begun, caught, turns, after) == []
  {
    FirstTurnEnds(begun, caught, turns[0], Latest(caught, turns), after, terminal, Output(begun, caught, [], after));
    OnlyTurn(begun, caught, turns, after);
  }

  lemma FirstTurnEnds(
    begun: State, caught: State, turn: Turn, latest: State, after: Option<Id>, terminal: bool, shown: seq<Entry>)
    requires Evolves(begun, caught) && AtEnd(begun.all, after) && EndVisible(turn)
    requires TurnIs(caught, turn, Cursor(after, shown), terminal) && shown == Output(begun, caught, [], after)
    requires turn.at.all <= latest.all && latest.all == begun.all
    ensures turn.ended && shown == []
  {
    TurnLogs(begun, caught, turn, latest);
    NothingShownAtEnd(begun, caught, after);
    FirstTurnCloses(turn, after, terminal, shown);
  }

  lemma NothingShownAtEnd(begun: State, caught: State, after: Option<Id>)
    requires Evolves(begun, caught) && caught.all == begun.all && AtEnd(begun.all, after)
    ensures Output(begun, caught, [], after) == []
  {
    ReadAtEnd(begun, caught, after);
  }

  lemma OnlyTurn(begun: State, caught: State, turns: seq<Turn>, after: Option<Id>)
    requires |turns| == 1 && turns[0].ended
    ensures Output(begun, caught, turns, after) == Output(begun, caught, [], after)
  {
    assert turns[..0] == [];
  }

  lemma FirstTurnCloses(turn: Turn, after: Option<Id>, terminal: bool, shown: seq<Entry>)
    requires Evolves(turn.probed, turn.asked) && turn.asked.all == turn.probed.all
    requires AtEnd(turn.probed.all, after) && EndVisible(turn) && shown == []
    ensures Closed(turn.probed, turn.asked, Cursor(after, shown), terminal)
  {
    ClosedAtEnd(turn.probed, turn.asked, after, terminal);
  }

  lemma TurnLogs(begun: State, caught: State, turn: Turn, latest: State)
    requires Evolves(begun, caught) && TurnFollows(caught, turn)
    requires turn.at.all <= latest.all && latest.all == begun.all
    ensures begun.all == caught.all == turn.probed.all == turn.asked.all && Evolves(turn.probed, turn.asked)
  {}

  lemma LastOfStream(s: State)
    requires Valid(s) && s.stream != []
    ensures s.all != [] && s.stream[|s.stream| - 1] == s.all[|s.all| - 1]
  {}

  lemma ArchivedIsRow(t: State, e: Entry)
    requires Valid(t) && e in t.all && Pack(e.id) in t.table
    ensures e in Replay(t.table, None, None)
  {
    RowIsEntry(t.all, t.table, e);
    ReplayMember(t.table, None, None, e);
  }

  lemma NoTerminalConcat(a: seq<Entry>, b: seq<Entry>)
    ensures HasTerminal(a + b) <==> HasTerminal(a) || HasTerminal(b)
  {
    if HasTerminal(a) {
      var i :| 0 <= i < |a| && a[i].event.terminal;
      assert (a + b)[i].event.terminal;
    }
    if HasTerminal(b) {
      var i :| 0 <= i < |b| && b[i].event.terminal;
      assert (a + b)[|a| + i].event.terminal;
    }
  }

  lemma NoRows(s: State)
    requires Valid(s) && Replay(s.table, None, None) == []
    ensures s.table == map[]
    ensures (forall e :: e in s.all ==> Pack(e.id) in s.table) ==> s.all == []
  {
    if s.table != map[] {
      var k :| k in s.table;
      PackOfUnpack(k);
      UnpackValue(k);
      ReplayMember(s.table, None, None, Entry(Unpack(k), s.table[k]));
    }
    HasMember(s.all);
  }

  lemma RowInLog(s: State, e: Entry)
    requires Valid(s) && e in Replay(s.table, None, None)
    ensures e in s.all
  {
    ReplayMember(s.table, None, None, e);
    var x :| x in s.all && Pack(e.id) == Pack(x.id) && s.table[Pack(e.id)] == x.event;
    PackPreservesOrder(e.id, x.id);
    assert e == x;
  }

  lemma NothingPast(log: seq<Entry>, cursor: Option<Id>)
    requires Ordered(log) && log != [] && !Past(log[|log| - 1].id, cursor)
    ensures After(log, cursor) == []
  {}
}
