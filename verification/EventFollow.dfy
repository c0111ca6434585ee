/** Subscribing to a run's events (src/app/run/log.py, follow): catch up, then block for more, and resume by cursor. */
module EventFollow {
  import opened Common
  import opened EventId
  import opened EventLog
  import opened Subscription

  lemma UnusedId(all: seq<Entry>, e: Entry)
    requires Ordered(all) && (all == [] || Less(all[|all| - 1].id, e.id))
    ensures e !in all
  {}

  class Service {
    var stream: seq<Entry>
    var table: Table
    const maxLength: nat
    /** Every event ever appended. No server keeps it; it is what readers are promised. */
    var all: seq<Entry>

    function View(): State
      reads this
    {
      State(all, stream, table)
    }

    constructor (maxLength: nat)
      ensures View() == EMPTY && Valid(View()) && this.maxLength == maxLength
    {
      this.maxLength := maxLength;
      stream, table, all := [], map[], [];
    }

    /** Other appenders, archive writers, trimming and the expiry clock: any number of their commands. */
    method Interfere()
      requires Valid(View())
      modifies this
      ensures Evolves(old(View()), View())
    {
      var commands: nat := *;
      while commands > 0
        invariant Evolves(old(View()), View())
      {
        var c: Command := *;
        if Enabled(View(), c) {
          NextEvolves(View(), c);
          var after := Next(View(), c);
          all, stream, table := after.all, after.stream, after.table;
        }
        commands := commands - 1;
      }
    }

    /** XADD with MAXLEN under an id Redis picks, then the archive row; a database failure loses only the row. */
    method Append(event: Event, databaseUp: bool) returns (logged: Entry, ghost added: State)
      requires Valid(View())
      modifies this
      ensures Enabled(old(View()), Xadd(logged, maxLength)) && added == Next(old(View()), Xadd(logged, maxLength))
      ensures Evolves(old(View()), added) && Evolves(added, View())
      ensures logged.event == event && logged in all && logged !in old(all)
      ensures old(all) + [logged] <= all
      ensures databaseUp ==> Pack(logged.id) in table && table[Pack(logged.id)] == event
    {
      logged := Add(event);
      added := View();
      ghost var n := |all| - 1;
      Interfere();
      assert all[n] == logged;
      if databaseUp {
        ghost var before := View();
        Archive(logged, n);
        EvolvesTransitive(added, before, View());
      }
    }

    method Add(event: Event) returns (logged: Entry)
      requires Valid(View())
      modifies this
      ensures Enabled(old(View()), Xadd(logged, maxLength)) && View() == Next(old(View()), Xadd(logged, maxLength))
      ensures Evolves(old(View()), View())
      ensures logged.event == event && logged !in old(all) && all == old(all) + [logged]
    {
      var ms: nat := *;
      var last := if all == [] then Id(0, 0) else all[|all| - 1].id;
      var id := if ms > last.ms then Id(ms, 0) else Id(last.ms + 1, 0);
      logged := Entry(id, event);
      UnusedId(all, logged);
      NextEvolves(View(), Xadd(logged, maxLength));
      stream, all := LastOf(stream + [logged], maxLength), all + [logged];
    }

    method Archive(logged: Entry, ghost n: nat)
      requires Valid(View()) && n < |all| && all[n] == logged
      modifies this
      ensures Evolves(old(View()), View()) && View() == Next(old(View()), Insert(n))
      ensures Pack(logged.id) in table && table[Pack(logged.id)] == logged.event
    {
      NextEvolves(View(), Insert(n));
      var key := Pack(logged.id);
      if key !in table {
        table := table[key := logged.event];
      }
      RowIsEntry(all, table, logged);
    }

    /** XRANGE, then (later) the archive query below the first live id. */
    method Read(after: Option<Id>) returns (entries: seq<Entry>)
      requires Valid(View())
      modifies this
      ensures Evolves(old(View()), View())
      ensures entries == EventLog.Read(old(stream), table, after)
      ensures (exists k :: ReadsUpTo(old(View()), View(), after, k)) <==> ReadExact(old(View()), View(), after)
      ensures ReadExact(old(View()), View(), after) ==>
                entries == After(all[..Covered(old(View()), View(), after)], after)
    {
      var live := After(stream, after);
      Interfere();
      entries := Replay(table, after, FirstId(live)) + live;
      ReadIsLogIff(old(View()), View(), after);
    }

    /** Yield a batch entry by entry, stopping after a terminal one. */
    method Deliver(batch: seq<Entry>, from: Option<Id>) returns (out: seq<Entry>, cursor: Option<Id>, stopped: bool)
      ensures out == Shown(batch)
      ensures stopped <==> HasTerminal(batch)
      ensures cursor == Cursor(from, out)
    {
      out, cursor, stopped := [], from, false;
      var i := 0;
      while i < |batch| && !stopped
        invariant 0 <= i <= |batch|
        invariant out == batch[..i] && cursor == Cursor(from, out)
        invariant !stopped ==> !HasTerminal(out)
        invariant stopped ==> HasTerminal(out) && out == Shown(batch)
      {
        ShownConcat(out, batch[i..]);
        assert batch == out + batch[i..];
        out := out + [batch[i]];
        cursor := Some(batch[i].id);
        stopped := batch[i].event.terminal;
        assert out[i] == batch[i];
        i := i + 1;
      }
      assert out == batch[..i];
      if !stopped {
        assert batch[..i] == batch;
        ShownWhole(batch);
      }
    }

    /** _ended: the stream's last entry, or (read later) the archive's; with no event at all, the run's row decides. */
    method Ended(cursor: Option<Id>, terminal: bool) returns (ended: bool)
      requires Valid(View())
      modifies this
      ensures Evolves(old(View()), View())
      ensures ended == Closed(old(View()), View(), cursor, terminal)
    {
      ghost var probed := View();
      var visible := stream;
      Interfere();
      EndedIff(probed, View(), cursor, terminal);
      if visible == [] {
        visible := Replay(table, None, None);
      }
      if visible == [] {
        return terminal;
      }
      var last := visible[|visible| - 1];
      return !Past(last.id, cursor) && last.event.terminal;
    }

    /** One turn of the endless loop: has the run ended, and if not, what is there past the cursor now? */
    method Poll(cursor: Option<Id>, terminal: bool) returns (ended: bool, batch: seq<Entry>, ghost turn: Turn)
      requires Valid(View())
      modifies this
      ensures TurnIs(old(View()), turn, cursor, terminal) && turn.at == View() && turn.ended == ended
      ensures batch == if ended then [] else After(stream, cursor)
    {
      Interfere();
      ghost var probed := View();
      ended := Ended(cursor, terminal);
      ghost var asked := View();
      batch := [];
      if !ended {
        Interfere();
        batch := After(stream, cursor);
      }
      turn := Turn(probed, asked, View(), ended);
    }

    /**
     * Catch up, then block for more, `rounds` times at most. What is yielded is the first read and then each blocking
     * read past the cursor, up to a terminal event; it stops there, or when _ended says so. It is a stretch of the log
     * past the start, up to and including the first terminal event, exactly when no read skipped anything (Intact).
     */
    method Follow(after: Option<Id>, terminal: bool, rounds: nat)
      returns (yielded: seq<Entry>, done: bool, ghost caught: State, ghost turns: seq<Turn>)
      requires Valid(View())
      modifies this
      ensures Happened(old(View()), caught, turns, after, terminal) && Latest(caught, turns) == View()
      ensures yielded == Output(old(View()), caught, turns, after)
      ensures done <==> HasTerminal(yielded) || LastEnded(turns)
      ensures !done ==> |turns| == rounds
      ensures (exists k :: Stretch(yielded, all, after, |old(all)|, k)) <==> Intact(old(View()), caught, turns, after)
      ensures Intact(old(View()), caught, turns, after) ==>
                yielded == Shown(After(Known(old(View()), caught, turns, after), after))
      ensures LastEnded(turns) ==> NothingVisible(turns[|turns| - 1], Cursor(after, yielded))
      ensures AtEnd(old(all), after) && all == old(all) && turns != [] && EndVisible(turns[0]) ==>
                done && yielded == [] && |turns| == 1
    {
      ghost var begun := View();
      yielded, done, caught, turns := Reads(after, terminal, rounds);
      FollowIsLogIff(begun, caught, turns, after, terminal);
      YieldsIsStretch(begun, caught, turns, after, yielded, all);
      if Intact(begun, caught, turns, after) {
        FollowIsLog(begun, caught, turns, after, terminal);
      }
      if AtEnd(begun.all, after) && all == begun.all && turns != [] && EndVisible(turns[0]) {
        ResumedAtEnd(begun, caught, turns, after, terminal);
      }
      if LastEnded(turns) {
        ClosedIsEmpty(begun, caught, turns, after, terminal);
      }
    }

    method Reads(after: Option<Id>, terminal: bool, rounds: nat)
      returns (yielded: seq<Entry>, done: bool, ghost caught: State, ghost turns: seq<Turn>)
      requires Valid(View())
      modifies this
      ensures Happened(old(View()), caught, turns, after, terminal) && Latest(caught, turns) == View()
      ensures yielded == Output(old(View()), caught, turns, after)
      ensures done <==> HasTerminal(yielded) || LastEnded(turns)
      ensures !done ==> |turns| == rounds
    {
      ghost var begun := View();
      var history := Read(after);
      caught, turns := View(), [];
      var cursor;
      yielded, cursor, done := Deliver(history, after);
      ShownShape(history);
      var round := 0;
      while round < rounds && !done
        invariant round <= rounds && |turns| == round
        invariant Happened(begun, caught, turns, after, terminal) && Latest(caught, turns) == View()
        invariant yielded == Output(begun, caught, turns, after) && cursor == Cursor(after, yielded)
        invariant done <==> HasTerminal(yielded) || LastEnded(turns)
        decreases rounds - round
      {
        yielded, cursor, done, turns := NextRead(after, terminal, yielded, cursor, begun, caught, turns);
        round := round + 1;
      }
    }

    method NextRead(after: Option<Id>, terminal: bool, sofar: seq<Entry>, from: Option<Id>,
                    ghost begun: State, ghost caught: State, ghost turns: seq<Turn>)
      returns (yielded: seq<Entry>, cursor: Option<Id>, done: bool, ghost longer: seq<Turn>)
      requires Happened(begun, caught, turns, after, terminal) && Latest(caught, turns) == View()
      requires sofar == Output(begun, caught, turns, after) && from == Cursor(after, sofar)
      requires !HasTerminal(sofar) && !LastEnded(turns)
      modifies this
      ensures |longer| == |turns| + 1
      ensures Happened(begun, caught, longer, after, terminal) && Latest(caught, longer) == View()
      ensures yielded == Output(begun, caught, longer, after) && cursor == Cursor(after, yielded)
      ensures done <==> HasTerminal(yielded) || LastEnded(longer)
    {
      HappenedValid(begun, caught, turns, after, terminal);
      var ended, batch, turn := Poll(from, terminal);
      var more, stopped;
      more, cursor, stopped := Deliver(batch, from);
      NextTurn(begun, caught, turns, after, terminal, turn, batch);
      CursorMoves(after, sofar, more);
      yielded, longer, done := sofar + more, turns + [turn], stopped || ended;
    }
  }
}
