/**
 * The orphan sweep (src/app/run/reaper.py): fail every orphan whose row is still open, and say so once. Other actors
 * update the same rows between any two of its updates.
 */
module Reaper {
  import opened RunLifecycle

  type Rows = map<string, Row>

  /** What others can do to the rows: a terminal one stays as it is. */
  ghost predicate Evolved(a: Rows, b: Rows) {
    a.Keys == b.Keys && forall id :: id in a && Terminal(a[id].status) ==> b[id] == a[id]
  }

  predicate Open(rows: Rows, id: string) {
    id in rows && Hits(rows[id], Fail)
  }

  /** The rows after the sweep's own update of one run. */
  function Closed(rows: Rows, id: string): Rows {
    if id in rows then rows[id := Updated(rows[id], Fail)] else rows
  }

  /** found[k] are the rows as the sweep's k-th update finds them. */
  ghost predicate Swept(start: Rows, found: seq<Rows>, orphans: seq<string>, end: Rows) {
    && |found| == |orphans|
    && if found == [] then end == start
       else
         && Evolved(start, found[0])
         && (forall k :: 0 < k < |found| ==> Evolved(Closed(found[k - 1], orphans[k - 1]), found[k]))
         && end == Closed(found[|found| - 1], orphans[|found| - 1])
  }

  /** The runs whose update hit, in order. */
  function Noticed(found: seq<Rows>, orphans: seq<string>): seq<string>
    requires |found| == |orphans|
  {
    if found == [] then []
    else
      var rest := Noticed(found[..|found| - 1], orphans[..|found| - 1]);
      if Open(found[|found| - 1], orphans[|found| - 1]) then rest + [orphans[|found| - 1]] else rest
  }

  lemma EvolvedTransitive(a: Rows, b: Rows, c: Rows)
    requires Evolved(a, b) && Evolved(b, c)
    ensures Evolved(a, c)
  {
    forall id | id in a && Terminal(a[id].status) ensures c[id] == a[id] {
      assert b[id] == a[id];
    }
  }

  lemma ClosedEvolves(rows: Rows, id: string)
    ensures Evolved(rows, Closed(rows, id))
    ensures id in rows ==> Terminal(Closed(rows, id)[id].status)
  {}

  lemma SweptInit(start: Rows, found: seq<Rows>, orphans: seq<string>, end: Rows)
    requires Swept(start, found, orphans, end) && found != []
    ensures var n := |found| - 1;
            exists mid :: Swept(start, found[..n], orphans[..n], mid) && Evolved(mid, found[n])
  {
    var n := |found| - 1;
    if n == 0 {
      assert Swept(start, found[..n], orphans[..n], start) && Evolved(start, found[n]);
    } else {
      var mid := Closed(found[n - 1], orphans[n - 1]);
      assert Evolved(mid, found[n]);
      assert Swept(start, found[..n], orphans[..n], mid);
    }
  }

  ghost predicate Distinct(ids: seq<string>) {
    forall i, j :: 0 <= i < j < |ids| ==> ids[i] != ids[j]
  }

  /**
   * Whatever others do meanwhile: a run gets at most one notice, and then its row is failed and was open at the start;
   * every orphan's row ends terminal; a row that was terminal is untouched.
   */
  lemma {:induction false} SweepIsExact(start: Rows, found: seq<Rows>, orphans: seq<string>, end: Rows)
    requires Swept(start, found, orphans, end)
    ensures Evolved(start, end) && Distinct(Noticed(found, orphans))
    ensures forall id :: id in Noticed(found, orphans) ==>
              id in orphans && id in start && !Terminal(start[id].status) && end[id].status.Failed?
    ensures forall id :: id in orphans && id in end ==> Terminal(end[id].status)
  {
    if found == [] {
    } else {
      var n := |found| - 1;
      SweptInit(start, found, orphans, end);
      var mid :| Swept(start, found[..n], orphans[..n], mid) && Evolved(mid, found[n]);
      SweepIsExact(start, found[..n], orphans[..n], mid);
      ClosedEvolves(found[n], orphans[n]);
      EvolvedTransitive(start, mid, found[n]);
      EvolvedTransitive(start, found[n], end);
      EvolvedTransitive(mid, found[n], end);
      OneMoreSwept(start, Noticed(found[..n], orphans[..n]), orphans, mid, found[n], end, n);
    }
  }

  lemma OneMoreSwept(start: Rows, rest: seq<string>, orphans: seq<string>, mid: Rows, last: Rows, end: Rows, n: nat)
    requires n == |orphans| - 1 && end == Closed(last, orphans[n])
    requires Evolved(start, last) && Evolved(mid, last) && Evolved(mid, end) && Distinct(rest)
    requires forall id :: id in rest ==>
               id in orphans[..n] && id in start && !Terminal(start[id].status) && mid[id].status.Failed?
    requires forall id :: id in orphans[..n] && id in mid ==> Terminal(mid[id].status)
    ensures var all := if Open(last, orphans[n]) then rest + [orphans[n]] else rest;
            && Distinct(all)
            && forall id :: id in all ==>
                 id in orphans && id in start && !Terminal(start[id].status) && end[id].status.Failed?
    ensures forall id :: id in orphans && id in end ==> Terminal(end[id].status)
  {
    var x := orphans[n];
    assert orphans == orphans[..n] + [x];
    forall id | id in rest ensures end[id].status.Failed? && (Open(last, x) ==> id != x) {
      assert Terminal(mid[id].status) && end[id] == mid[id] && last[id] == mid[id];
    }
    forall id | id in orphans && id in end ensures Terminal(end[id].status) {
      if id != x {
        assert id in orphans[..n] && end[id] == mid[id];
      }
    }
  }

  /** Sweeping any of the same orphans again, later, finds nothing open and appends no notice. */
  lemma SecondSweepIsEmpty(start: Rows, found: seq<Rows>, orphans: seq<string>, mid: Rows,
                           again: Rows, later: seq<Rows>, ids: seq<string>, end: Rows)
    requires Swept(start, found, orphans, mid) && Evolved(mid, again) && Swept(again, later, ids, end)
    requires forall id :: id in ids ==> id in orphans
    ensures Noticed(later, ids) == []
    ensures forall id :: id in ids && id in mid ==> id in end && end[id] == mid[id]
  {
    SweepIsExact(start, found, orphans, mid);
    SweepIsExact(again, later, ids, end);
    forall id | id in ids && id in mid ensures end[id] == mid[id] && Terminal(again[id].status) {
      assert Terminal(mid[id].status) && again[id] == mid[id];
    }
    NoneNoticed(Noticed(later, ids));
  }

  /** A notice whose append raised is lost: its row is failed, and no sweep, whatever it lists, gives it another one. */
  lemma RaisedNoticeIsLost(start: Rows, found: seq<Rows>, orphans: seq<string>, mid: Rows,
                           again: Rows, later: seq<Rows>, ids: seq<string>, end: Rows)
    requires Swept(start, found, orphans, mid) && Evolved(mid, again) && Swept(again, later, ids, end)
    requires found != [] && Open(found[|found| - 1], orphans[|found| - 1])
    ensures var n := |found| - 1;
            var id := orphans[n];
            && id in end && end[id].status.Failed?
            && id !in Noticed(found[..n], orphans[..n]) && id !in Noticed(later, ids)
  {
    var n := |found| - 1;
    var id := orphans[n];
    SweepIsExact(start, found, orphans, mid);
    SweepIsExact(again, later, ids, end);
    var rest := Noticed(found[..n], orphans[..n]);
    assert Noticed(found, orphans) == rest + [id];
    LastIsNew(rest, id);
    assert id in rest + [id];
    assert again[id] == mid[id] == end[id];
  }

  lemma LastIsNew(rest: seq<string>, id: string)
    requires Distinct(rest + [id])
    ensures id !in rest
  {
    forall i | 0 <= i < |rest| ensures rest[i] != id {
      assert (rest + [id])[i] != (rest + [id])[|rest|];
    }
  }

  lemma NoneNoticed(ids: seq<string>)
    ensures ids == [] || exists id :: id in ids
  {
    if ids != [] {
      assert ids[0] in ids;
    }
  }

  /** How a sweep ends: through its list, or with an exception out of an update or an append. */
  datatype End = Finished | UpdateRaised | AppendRaised

  class Sweeper {
    var rows: Rows
    /** Runs whose run.failed event has been appended, in order. */
    var notices: seq<string>

    constructor (rows: Rows)
      ensures this.rows == rows && notices == []
    {
      this.rows, notices := rows, [];
    }

    /** Workers, cancels and other sweeps: any number of conditional updates of any rows. */
    method Interfere()
      modifies this`rows
      ensures Evolved(old(rows), rows)
    {
      var n: nat := *;
      while n > 0
        invariant Evolved(old(rows), rows)
      {
        var id: string, u: Update := *, *;
        if id in rows {
          rows := rows[id := Updated(rows[id], u)];
        }
        n := n - 1;
      }
    }

    /** Others work, then one conditional update. */
    method FailOne(id: string) returns (hit: bool, ghost seen: Rows)
      modifies this`rows
      ensures Evolved(old(rows), seen) && rows == Closed(seen, id) && hit == Open(seen, id)
    {
      Interfere();
      seen, hit := rows, Open(rows, id);
      if hit {
        rows := rows[id := Written(rows[id], Fail)];
      } else if id in rows {
        assert rows[id := rows[id]] == rows;
      }
    }

    /** sweep: one conditional update after the other, a notice for each that hits; whichever raises ends it. */
    method Sweep(orphans: seq<string>) returns (reaped: nat, end: End, ghost found: seq<Rows>)
      modifies this
      ensures |found| <= |orphans| && Swept(old(rows), found, orphans[..|found|], rows)
      ensures end.Finished? ==> |found| == |orphans| && reaped == |Noticed(found, orphans[..|found|])|
      ensures !end.AppendRaised? ==> notices == old(notices) + Noticed(found, orphans[..|found|])
      ensures end.UpdateRaised? ==> |found| < |orphans|
      ensures end.AppendRaised? ==>
                && found != [] && Open(found[|found| - 1], orphans[|found| - 1])
                && notices + [orphans[|found| - 1]] == old(notices) + Noticed(found, orphans[..|found|])
    {
      reaped, end, found := 0, Finished, [];
      for k := 0 to |orphans|
        invariant |found| == k && Swept(old(rows), found, orphans[..k], rows)
        invariant notices == old(notices) + Noticed(found, orphans[..k]) && reaped == |Noticed(found, orphans[..k])|
      {
        var updateRaises, appendRaises: bool := *, *;
        if updateRaises {
          return reaped, UpdateRaised, found;
        }
        ghost var before := rows;
        var hit, seen := FailOne(orphans[k]);
        NextFound(old(rows), found, orphans, before, seen, k);
        found := found + [seen];
        if hit {
          if appendRaises {
            return reaped, AppendRaised, found;
          }
          notices := notices + [orphans[k]];
          reaped := reaped + 1;
        }
      }
    }
  }

  lemma NextFound(start: Rows, found: seq<Rows>, orphans: seq<string>, before: Rows, rows: Rows, k: nat)
    requires k < |orphans| && Swept(start, found, orphans[..k], before) && Evolved(before, rows)
    ensures Swept(start, found + [rows], orphans[..k + 1], Closed(rows, orphans[k]))
    ensures Noticed(found + [rows], orphans[..k + 1]) ==
            Noticed(found, orphans[..k]) + if Open(rows, orphans[k]) then [orphans[k]] else []
  {
    var more, ids := found + [rows], orphans[..k + 1];
    assert more[..|more| - 1] == found && ids[..|more| - 1] == orphans[..k];
    forall j | 0 < j < |more| ensures Evolved(Closed(more[j - 1], ids[j - 1]), more[j]) {
      if j < |found| {
        assert Evolved(Closed(found[j - 1], orphans[..k][j - 1]), found[j]);
      }
    }
  }
}
