/** Replay compaction (src/app/run/replay.py): adjacent text increments of one kind and one path become one event. */
module Replay {
  import opened Common

  /** The two mergeable kinds carry text; every other kind is opaque to compaction. */
  datatype Event =
    | Token(ts: int, runId: string, path: seq<string>, text: string)
    | Reasoning(ts: int, runId: string, path: seq<string>, text: string)
    | Other(ts: int, runId: string, path: seq<string>, kind: string, payload: string)

  datatype Logged = Logged(id: string, event: Event)

  /** Neighbouring increments of the same stretch of text. */
  predicate Mergeable(previous: Logged, current: Logged) {
    && !current.event.Other?
    && previous.event.Token? == current.event.Token?
    && previous.event.Reasoning? == current.event.Reasoning?
    && previous.event.path == current.event.path
  }

  /** The later event keeps its id and timestamp, the texts are joined. */
  function Merge(previous: Logged, current: Logged): Logged
    requires Mergeable(previous, current)
  {
    Logged(current.id, current.event.(text := previous.event.text + current.event.text))
  }

  /** One iteration of the loop. */
  function Push(acc: seq<Logged>, e: Logged): seq<Logged> {
    if acc != [] && Mergeable(acc[|acc| - 1], e)
    then acc[..|acc| - 1] + [Merge(acc[|acc| - 1], e)]
    else acc + [e]
  }

  function PushAll(acc: seq<Logged>, events: seq<Logged>): seq<Logged> {
    if events == [] then acc
    else Push(PushAll(acc, events[..|events| - 1]), events[|events| - 1])
  }

  function Collapsed(events: seq<Logged>): seq<Logged> {
    PushAll([], events)
  }

  method Collapse(events: seq<Logged>) returns (collapsed: seq<Logged>)
    ensures collapsed == Collapsed(events)
  {
    collapsed := [];
    for i := 0 to |events|
      invariant collapsed == Collapsed(events[..i])
    {
      assert events[..i + 1][..i] == events[..i];
      if |collapsed| > 0 && Mergeable(collapsed[|collapsed| - 1], events[i]) {
        collapsed := collapsed[..|collapsed| - 1] + [Merge(collapsed[|collapsed| - 1], events[i])];
      } else {
        collapsed := collapsed + [events[i]];
      }
    }
    assert events[..|events|] == events;
  }

  // ---- What a reader of the replay sees ----

  /** A rendered unit: one character with its kind and path, or one whole non-text event in its place. */
  datatype Unit = Letter(thought: bool, path: seq<string>, c: char) | Whole(e: Logged)

  function Letters(thought: bool, path: seq<string>, text: string): (r: seq<Unit>)
    ensures |r| == |text| && forall i :: 0 <= i < |r| ==> r[i] == Letter(thought, path, text[i])
  {
    seq(|text|, i requires 0 <= i < |text| => Letter(thought, path, text[i]))
  }

  function Units(e: Logged): seq<Unit> {
    if e.event.Other? then [Whole(e)] else Letters(e.event.Reasoning?, e.event.path, e.event.text)
  }

  function Rendered(events: seq<Logged>): seq<Unit> {
    if events == [] then [] else Rendered(events[..|events| - 1]) + Units(events[|events| - 1])
  }

  lemma RenderedPush(acc: seq<Logged>, e: Logged)
    ensures Rendered(Push(acc, e)) == Rendered(acc) + Units(e)
  {
    if acc != [] && Mergeable(acc[|acc| - 1], e) {
      var init, last := acc[..|acc| - 1], acc[|acc| - 1];
      RenderedLast(init, Merge(last, e));
      MergedUnits(last, e);
      Grouped(Rendered(init), Units(last), Units(e));
    } else {
      RenderedLast(acc, e);
    }
  }

  lemma RenderedLast(acc: seq<Logged>, e: Logged)
    ensures Rendered(acc + [e]) == Rendered(acc) + Units(e)
  {
    assert (acc + [e])[..|acc|] == acc;
  }

  lemma MergedUnits(a: Logged, b: Logged)
    requires Mergeable(a, b)
    ensures Units(Merge(a, b)) == Units(a) + Units(b)
  {
    LettersConcat(b.event.Reasoning?, b.event.path, a.event.text, b.event.text);
  }

  lemma LettersConcat(thought: bool, path: seq<string>, a: string, b: string)
    ensures Letters(thought, path, a + b) == Letters(thought, path, a) + Letters(thought, path, b)
  {
    var whole, parts := Letters(thought, path, a + b), Letters(thought, path, a) + Letters(thought, path, b);
    assert |whole| == |parts|;
    forall i | 0 <= i < |whole| ensures whole[i] == parts[i] {
      assert (a + b)[i] == if i < |a| then a[i] else b[i - |a|];
    }
  }

  /** Compaction changes nothing a reader sees: same text, same tags, same order, other events in place. */
  lemma {:induction false} CollapsePreservesMeaning(events: seq<Logged>)
    ensures Rendered(Collapsed(events)) == Rendered(events)
  {
    if events == [] {
    } else {
      var init, e := events[..|events| - 1], events[|events| - 1];
      CollapsePreservesMeaning(init);
      RenderedPush(Collapsed(init), e);
    }
  }

  // ---- Shape of the result ----

  /** Who speaks in a text event: thinking or answering, and on which path. */
  datatype Voice = Voice(thought: bool, path: seq<string>)

  function VoiceOf(e: Logged): Option<Voice> {
    match e.event
    case Token(_, _, path, _) => Some(Voice(false, path))
    case Reasoning(_, _, path, _) => Some(Voice(true, path))
    case Other(_, _, _, _, _) => None
  }

  predicate SameVoice(a: Logged, b: Logged) {
    VoiceOf(a).Some? && VoiceOf(a) == VoiceOf(b)
  }

  /** No two neighbours are text of one voice. */
  ghost predicate Compact(events: seq<Logged>) {
    forall i :: 0 <= i < |events| - 1 ==> !SameVoice(events[i], events[i + 1])
  }

  predicate SameStretch(a: Logged, b: Logged) {
    && a.event.Token? == b.event.Token?
    && a.event.Reasoning? == b.event.Reasoning?
    && a.event.path == b.event.path
  }

  /** One loop iteration, seen from the input: whether it merges depends on the two input events alone. */
  lemma {:induction false} CollapseStep(events: seq<Logged>)
    requires events != []
    ensures var init, e := events[..|events| - 1], events[|events| - 1];
            && Collapsed(events) == Push(Collapsed(init), e)
            && Collapsed(events) != []
            && SameStretch(Collapsed(events)[|Collapsed(events)| - 1], e)
            && (init == [] ==> Collapsed(init) == [])
            && (init != [] ==>
                  && Collapsed(init) != []
                  && (Mergeable(Collapsed(init)[|Collapsed(init)| - 1], e) <==> Mergeable(init[|init| - 1], e)))
  {}

  lemma PushCompact(acc: seq<Logged>, e: Logged)
    requires Compact(acc)
    ensures Compact(Push(acc, e))
  {}

  lemma {:induction false} CollapseIsCompact(events: seq<Logged>)
    ensures Compact(Collapsed(events))
  {
    if events != [] {
      CollapseIsCompact(events[..|events| - 1]);
      PushCompact(Collapsed(events[..|events| - 1]), events[|events| - 1]);
    }
  }

  lemma {:induction false} CompactIsFixed(events: seq<Logged>)
    requires Compact(events)
    ensures Collapsed(events) == events
  {
    if events == [] {
    } else {
      CompactInit(events);
      CompactIsFixed(events[..|events| - 1]);
    }
  }

  lemma CompactInit(events: seq<Logged>)
    requires Compact(events) && events != []
    ensures Compact(events[..|events| - 1])
    ensures |events| > 1 ==> !SameVoice(events[|events| - 2], events[|events| - 1])
  {
    var init := events[..|events| - 1];
    forall i | 0 <= i < |init| - 1 ensures !SameVoice(init[i], init[i + 1]) {
      assert !SameVoice(events[i], events[i + 1]);
    }
    assert |events| > 1 ==> !SameVoice(events[|events| - 2], events[|events| - 2 + 1]);
  }

  lemma CollapseIsIdempotent(events: seq<Logged>)
    ensures Collapsed(Collapsed(events)) == Collapsed(events)
  {
    CollapseIsCompact(events);
    CompactIsFixed(Collapsed(events));
  }

  lemma {:induction false} CollapseOfConcat(a: seq<Logged>, b: seq<Logged>)
    ensures Collapsed(a + b) == PushAll(Collapsed(a), b)
  {
    if b == [] {
      assert a + b == a;
    } else {
      var init := b[..|b| - 1];
      CollapseOfConcat(a, init);
      assert (a + b)[..|a + b| - 1] == a + init;
    }
  }

  /** Compacting a page at a time gives the same replay as compacting the whole history. */
  lemma CollapseIncrementally(a: seq<Logged>, b: seq<Logged>)
    ensures Collapsed(Collapsed(a) + b) == Collapsed(a + b)
  {
    CollapseOfConcat(a, b);
    CollapseOfConcat(Collapsed(a), b);
    CollapseIsIdempotent(a);
  }

  // ---- An independent description: cut the history exactly where neighbours do not merge ----

  function TextOf(stretch: seq<Logged>): string {
    if stretch == [] then []
    else TextOf(stretch[..|stretch| - 1])
         + (if stretch[|stretch| - 1].event.Other? then [] else stretch[|stretch| - 1].event.text)
  }

  /** A stretch as one event: the last one's id and timestamp, everybody's text. */
  function Joined(stretch: seq<Logged>): Logged
    requires stretch != []
  {
    var last := stretch[|stretch| - 1];
    if last.event.Other? then last else Logged(last.id, last.event.(text := TextOf(stretch)))
  }

  ghost predicate AllNonempty(stretches: seq<seq<Logged>>) {
    forall i :: 0 <= i < |stretches| ==> stretches[i] != []
  }

  ghost function JoinAll(stretches: seq<seq<Logged>>): seq<Logged>
    requires AllNonempty(stretches)
  {
    if stretches == [] then []
    else JoinAll(stretches[..|stretches| - 1]) + [Joined(stretches[|stretches| - 1])]
  }

  function Concat(stretches: seq<seq<Logged>>): seq<Logged> {
    if stretches == [] then [] else Concat(stretches[..|stretches| - 1]) + stretches[|stretches| - 1]
  }

  /** A stretch is text of one voice, or one single event. */
  ghost predicate Uniform(stretch: seq<Logged>) {
    forall i :: 0 <= i < |stretch| - 1 ==> SameVoice(stretch[i], stretch[i + 1])
  }

  /** A division of the history into maximal uniform stretches. */
  ghost predicate Division(events: seq<Logged>, stretches: seq<seq<Logged>>)
    decreases |stretches|
  {
    if stretches == [] then events == []
    else
      var last := stretches[|stretches| - 1];
      && 0 < |last| <= |events|
      && last == events[|events| - |last|..]
      && Uniform(last)
      && (|last| < |events| ==> !SameVoice(events[|events| - |last| - 1], last[0]))
      && Division(events[..|events| - |last|], stretches[..|stretches| - 1])
  }

  lemma CollapsedLast(events: seq<Logged>, e: Logged)
    ensures Collapsed(events + [e]) == Push(Collapsed(events), e)
  {
    assert (events + [e])[..|events|] == events;
  }

  lemma PushOnto(acc: seq<Logged>, x: Logged, e: Logged)
    ensures Push(acc + [x], e) == if Mergeable(x, e) then acc + [Merge(x, e)] else acc + [x] + [e]
  {
    assert (acc + [x])[..|acc|] == acc;
  }

  lemma JoinedOne(e: Logged)
    ensures Joined([e]) == e
  {
    assert [e][..0] == [];
    assert TextOf([]) == "";
    assert TextOf([e]) == if e.event.Other? then "" else e.event.text;
  }

  lemma JoinedMore(init: seq<Logged>, e: Logged)
    requires init != [] && Mergeable(init[|init| - 1], e)
    ensures Mergeable(Joined(init), e) && Joined(init + [e]) == Merge(Joined(init), e)
  {
    assert (init + [e])[..|init|] == init;
    assert TextOf(init + [e]) == TextOf(init) + e.event.text;
  }

  /** A uniform tail is folded into one event on top of whatever the head collapses to. */
  lemma {:induction false} CollapseUniformTail(head: seq<Logged>, tail: seq<Logged>)
    requires tail != [] && Uniform(tail)
    requires head != [] ==> !Mergeable(head[|head| - 1], tail[0])
    ensures Collapsed(head + tail) == Collapsed(head) + [Joined(tail)]
    decreases |tail|
  {
    var n := |tail|;
    var init, e := tail[..n - 1], tail[n - 1];
    if n == 1 {
      assert tail == [e];
      FreshTail(head, e);
      JoinedOne(e);
    } else {
      UniformInit(tail);
      CollapseUniformTail(head, init);
      UniformStep(head, init, e);
      assert tail == init + [e];
    }
  }

  lemma UniformInit(tail: seq<Logged>)
    requires |tail| > 1 && Uniform(tail)
    ensures Uniform(tail[..|tail| - 1]) && SameVoice(tail[|tail| - 2], tail[|tail| - 1])
  {
    var init := tail[..|tail| - 1];
    forall i | 0 <= i < |init| - 1 ensures SameVoice(init[i], init[i + 1]) {
      assert SameVoice(tail[i], tail[i + 1]);
    }
    assert SameVoice(tail[|tail| - 2], tail[|tail| - 2 + 1]);
  }

  lemma UniformStep(head: seq<Logged>, init: seq<Logged>, e: Logged)
    requires init != [] && Mergeable(init[|init| - 1], e)
    requires Collapsed(head + init) == Collapsed(head) + [Joined(init)]
    ensures Collapsed(head + (init + [e])) == Collapsed(head) + [Joined(init + [e])]
  {
    JoinedMore(init, e);
    PushOnto(Collapsed(head), Joined(init), e);
    CollapsedLast(head + init, e);
    Grouped(head, init, [e]);
  }

  lemma FreshTail(head: seq<Logged>, e: Logged)
    requires head != [] ==> !Mergeable(head[|head| - 1], e)
    ensures Collapsed(head + [e]) == Collapsed(head) + [e]
  {
    CollapseStep(head + [e]);
    assert (head + [e])[..|head|] == head;
  }

  lemma DivisionStep(events: seq<Logged>, stretches: seq<seq<Logged>>)
    requires stretches != [] && Division(events, stretches)
    ensures var tail := stretches[|stretches| - 1];
            && 0 < |tail| <= |events|
            && var head := events[..|events| - |tail|];
            && events == head + tail
            && Collapsed(events) == Collapsed(head) + [Joined(tail)]
  {
    var tail := stretches[|stretches| - 1];
    var head := events[..|events| - |tail|];
    assert events == head + tail;
    CollapseUniformTail(head, tail);
  }

  lemma {:induction false} DivisionJoins(events: seq<Logged>, stretches: seq<seq<Logged>>)
    requires Division(events, stretches)
    ensures AllNonempty(stretches) && Concat(stretches) == events && JoinAll(stretches) == Collapsed(events)
    decreases |stretches|
  {
    if stretches == [] {
    } else {
      var m := |stretches| - 1;
      DivisionStep(events, stretches);
      DivisionJoins(events[..|events| - |stretches[m]|], stretches[..m]);
      assert forall i :: 0 <= i < m ==> stretches[i] == stretches[..m][i];
    }
  }

  lemma {:induction false} DivisionExists(events: seq<Logged>) returns (stretches: seq<seq<Logged>>)
    ensures Division(events, stretches)
  {
    if events == [] {
      stretches := [];
    } else {
      var k := |events| - 1;
      while k > 0 && SameVoice(events[k - 1], events[k])
        invariant 0 <= k < |events|
        invariant forall i :: k < i < |events| ==> SameVoice(events[i - 1], events[i])
      {
        k := k - 1;
      }
      var tail := events[k..];
      forall i | 0 <= i < |tail| - 1 ensures SameVoice(tail[i], tail[i + 1]) {
        assert SameVoice(events[k + i + 1 - 1], events[k + i + 1]);
      }
      var before := DivisionExists(events[..k]);
      stretches := before + [tail];
      assert stretches[..|before|] == before;
    }
  }

  /**
   * A history divides into maximal uniform stretches, and whatever the division: the stretches are nonempty, their
   * concatenation is the history, and the result is each of them joined, in order.
   */
  lemma CollapseJoinsStretches(events: seq<Logged>)
    ensures exists stretches :: Division(events, stretches)
    ensures forall stretches :: Division(events, stretches) ==>
              AllNonempty(stretches) && Concat(stretches) == events && JoinAll(stretches) == Collapsed(events)
  {
    var some := DivisionExists(events);
    forall stretches | Division(events, stretches)
      ensures AllNonempty(stretches) && Concat(stretches) == events && JoinAll(stretches) == Collapsed(events)
    {
      DivisionJoins(events, stretches);
    }
  }

  // ---- Cursor ids ----

  function Ids(events: seq<Logged>): (ids: seq<string>)
    ensures |ids| == |events| && forall i :: 0 <= i < |ids| ==> ids[i] == events[i].id
  {
    seq(|events|, i requires 0 <= i < |events| => events[i].id)
  }

  predicate Subsequence(a: seq<string>, b: seq<string>)
    decreases |b|
  {
    || a == []
    || (&& b != []
        && (|| (a[|a| - 1] == b[|b| - 1] && Subsequence(a[..|a| - 1], b[..|b| - 1]))
            || Subsequence(a, b[..|b| - 1])))
  }

  lemma {:induction false} SubsequenceDropLast(a: seq<string>, b: seq<string>)
    requires a != [] && Subsequence(a, b)
    ensures Subsequence(a[..|a| - 1], b)
    decreases |b|
  {
    var init := a[..|a| - 1];
    if init != [] && !(a[|a| - 1] == b[|b| - 1] && Subsequence(init, b[..|b| - 1])) {
      SubsequenceDropLast(a, b[..|b| - 1]);
    }
  }

  lemma SubsequenceBoth(a: seq<string>, b: seq<string>, x: string)
    requires Subsequence(a, b)
    ensures Subsequence(a + [x], b + [x])
  {
    assert (a + [x])[..|a|] == a && (b + [x])[..|b|] == b;
  }

  lemma PushedIds(acc: seq<Logged>, e: Logged)
    ensures Ids(Push(acc, e)) ==
            (if acc != [] && Mergeable(acc[|acc| - 1], e) then Ids(acc)[..|acc| - 1] else Ids(acc)) + [e.id]
  {}

  /** Replay cursors stay valid: every id came from the history, in order, and the last one is the history's last. */
  lemma {:induction false} CollapseKeepsCursors(events: seq<Logged>)
    ensures Subsequence(Ids(Collapsed(events)), Ids(events))
    ensures var all := Collapsed(events);
            events != [] ==> all != [] && all[|all| - 1].id == events[|events| - 1].id
  {
    if events == [] {
    } else {
      var init, e := events[..|events| - 1], events[|events| - 1];
      var acc := Collapsed(init);
      CollapseKeepsCursors(init);
      PushedIds(acc, e);
      assert Ids(events) == Ids(init) + [e.id];
      if acc != [] && Mergeable(acc[|acc| - 1], e) {
        SubsequenceDropLast(Ids(acc), Ids(init));
        SubsequenceBoth(Ids(acc)[..|acc| - 1], Ids(init), e.id);
      } else {
        SubsequenceBoth(Ids(acc), Ids(init), e.id);
      }
      assert Push(acc, e)[|Push(acc, e)| - 1].id == e.id;
    }
  }
}
