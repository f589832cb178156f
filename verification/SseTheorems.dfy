/** What the stream emits. */
module SseTheorems {
  import opened Prelude
  import opened Sse

  /** Did event i of the stream get through? */
  predicate EmittedAt(st: State, es: seq<RawEvent>, i: nat)
    requires i < |es|
  {
    !IsDuplicate(Run(st, es[..i]), es[i])
  }

  predicate ClearsAt(st: State, es: seq<RawEvent>, i: nat)
    requires i < |es|
  {
    Clears(Run(st, es[..i]), es[i])
  }

  predicate InWindow(st: State) {
    |st.window| <= WINDOW_LIMIT
  }

  function WithId(out: seq<NormalizedEvent>): nat {
    if out == [] then 0 else
      WithId(out[..|out| - 1]) + if EventId(out[|out| - 1].raw).Some? then 1 else 0
  }

  function ClearCount(st: State, es: seq<RawEvent>): nat {
    if es == [] then 0 else
      var n := |es| - 1;
      ClearCount(st, es[..n]) + if Clears(Run(st, es[..n]), es[n]) then 1 else 0
  }

  /** The window never holds more than 100 ids, and every 101st emitted id empties it. */
  lemma {:induction false} CountingLaw(st: State, es: seq<RawEvent>)
    requires InWindow(st)
    ensures InWindow(Run(st, es))
    ensures WithId(Emitted(st, es)) + |st.window| == 101 * ClearCount(st, es) + |Run(st, es).window|
  {
    if es != [] {
      var n := |es| - 1;
      CountingLaw(st, es[..n]);
      var before, out := Run(st, es[..n]), Emitted(st, es[..n]);
      if IsDuplicate(before, es[n]) {
        assert Emitted(st, es) == out;
      } else {
        assert Emitted(st, es)[..|out|] == out;
      }
    }
  }

  /** Emitted events carry consecutive numbers, and only they advance the counter. */
  lemma {:induction false} NumberedConsecutively(st: State, es: seq<RawEvent>)
    ensures Run(st, es).sequence == st.sequence + |Emitted(st, es)|
    ensures forall k :: 0 <= k < |Emitted(st, es)| ==> Emitted(st, es)[k].sequence == st.sequence + k
  {
    if es != [] { NumberedConsecutively(st, es[..|es| - 1]); }
  }

  /** The terminal flag remembers any terminal event, a suppressed one too. */
  lemma {:induction false} TerminalIsSeen(st: State, es: seq<RawEvent>)
    ensures Run(st, es).terminal <==> st.terminal || exists i :: 0 <= i < |es| && es[i].eventType in TERMINAL_TYPES
  {
    if es != [] {
      var n := |es| - 1;
      TerminalIsSeen(st, es[..n]);
      forall i | 0 <= i < n ensures es[..n][i] == es[i] {
      }
    }
  }

  // ----- which events are suppressed -----

  /** Event i was emitted with this id, and nothing emptied the window from then until before j. */
  ghost predicate RememberedFrom(es: seq<RawEvent>, id: string, i: nat, j: nat)
    requires j <= |es|
  {
    && i < j && EventId(es[i]) == Some(id) && EmittedAt(FRESH, es, i)
    && forall k :: i <= k < j ==> !ClearsAt(FRESH, es, k)
  }

  lemma WindowStep(es: seq<RawEvent>, p: nat, id: string)
    requires p < |es|
    ensures id in Run(FRESH, es[..p + 1]).window
            <==> !ClearsAt(FRESH, es, p)
                 && (id in Run(FRESH, es[..p]).window || (EventId(es[p]) == Some(id) && EmittedAt(FRESH, es, p)))
  {
    assert es[..p + 1][..p] == es[..p];
  }

  lemma RememberedStep(es: seq<RawEvent>, id: string, i: nat, p: nat)
    requires i < p < |es|
    ensures RememberedFrom(es, id, i, p + 1) <==> RememberedFrom(es, id, i, p) && !ClearsAt(FRESH, es, p)
  {
  }

  /** The window holds exactly the ids emitted since it was last emptied. */
  lemma {:induction false} WindowHoldsEpoch(es: seq<RawEvent>, j: nat, id: string)
    requires j <= |es|
    ensures id in Run(FRESH, es[..j]).window <==> exists i :: RememberedFrom(es, id, i, j)
  {
    if j > 0 {
      var p := j - 1;
      WindowStep(es, p, id);
      WindowHoldsEpoch(es, p, id);
      if id in Run(FRESH, es[..p + 1]).window {
        if EventId(es[p]) == Some(id) && EmittedAt(FRESH, es, p) {
          assert RememberedFrom(es, id, p, j);
        } else {
          var i :| RememberedFrom(es, id, i, p);
          RememberedStep(es, id, i, p);
        }
      }
      if i: nat :| RememberedFrom(es, id, i, j) {
        if i < p { RememberedStep(es, id, i, p); }
      }
    }
  }

  /** An event is suppressed exactly when its id was emitted since the last emptying. */
  lemma SuppressedIffRemembered(es: seq<RawEvent>, j: nat)
    requires j < |es|
    ensures !EmittedAt(FRESH, es, j)
            <==> EventId(es[j]).Some? && exists i :: RememberedFrom(es, EventId(es[j]).value, i, j)
  {
    if EventId(es[j]).Some? { WindowHoldsEpoch(es, j, EventId(es[j]).value); }
  }

  /** Between two emissions of one id the window was emptied. */
  lemma OncePerEpoch(es: seq<RawEvent>, i: nat, j: nat)
    requires i < j < |es| && EventId(es[i]).Some? && EventId(es[i]) == EventId(es[j])
    requires EmittedAt(FRESH, es, i) && EmittedAt(FRESH, es, j)
    ensures exists k :: i <= k < j && ClearsAt(FRESH, es, k)
  {
    if forall k :: i <= k < j ==> !ClearsAt(FRESH, es, k) {
      assert RememberedFrom(es, EventId(es[i]).value, i, j);
      SuppressedIffRemembered(es, j);
      assert false;
    }
  }

  // ----- short streams -----

  function IdsOf(es: seq<RawEvent>): set<string> {
    if es == [] then {} else
      IdsOf(es[..|es| - 1]) + IdOf(es[|es| - 1])
  }

  /** The reference: first occurrences of ids, and every event without one, numbered from zero. */
  function FirstOccurrences(es: seq<RawEvent>): seq<NormalizedEvent> {
    if es == [] then [] else
      var n := |es| - 1;
      var before := FirstOccurrences(es[..n]);
      if EventId(es[n]).Some? && EventId(es[n]).value in IdsOf(es[..n]) then before
      else before + [NormalizedEvent(es[n], |before|, es[n].eventType in HEARTBEAT_TYPES)]
  }

  function IdOf(e: RawEvent): set<string> {
    if EventId(e).Some? then {EventId(e).value} else {}
  }

  /** While the ids fit, the window takes every id and only a repeated one is suppressed. */
  lemma WindowTakesId(st: State, e: RawEvent)
    requires |st.window + IdOf(e)| <= WINDOW_LIMIT
    ensures Next(st, e).window == st.window + IdOf(e)
  {
  }

  /** With at most 100 different ids the stream is exactly its first occurrences. */
  lemma {:induction false} ShortStreamsAreExact(es: seq<RawEvent>)
    requires |IdsOf(es)| <= WINDOW_LIMIT
    ensures Emitted(FRESH, es) == FirstOccurrences(es)
    ensures Run(FRESH, es).window == IdsOf(es)
  {
    if es != [] {
      var n := |es| - 1;
      assert |IdsOf(es[..n])| <= WINDOW_LIMIT by { SubsetSize(IdsOf(es[..n]), IdsOf(es)); }
      ShortStreamsAreExact(es[..n]);
      WindowTakesId(Run(FRESH, es[..n]), es[n]);
      NumberedConsecutively(FRESH, es[..n]);
    }
  }

  // ----- all streams -----

  /** How many different ids come before the first occurrence of this one. */
  function Rank(es: seq<RawEvent>, id: string): nat
    requires id in IdsOf(es)
  {
    var n := |es| - 1;
    if id in IdsOf(es[..n]) then Rank(es[..n], id) else |IdsOf(es[..n])|
  }

  /** The window's life: as many new ids as it takes to empty it. */
  function Block(rank: nat): nat {
    rank / (WINDOW_LIMIT + 1)
  }

  /** The event is new, or it repeats an id of the block of 101 that is being filled. */
  predicate RepeatsInBlock(before: seq<RawEvent>, e: RawEvent) {
    EventId(e).Some? && EventId(e).value in IdsOf(before) ==>
      Block(Rank(before, EventId(e).value)) == Block(|IdsOf(before)|)
  }

  /** A condition on the stream alone: no id comes back after its block is full. */
  predicate RepeatsStayInBlock(es: seq<RawEvent>) {
    es != [] ==> RepeatsStayInBlock(es[..|es| - 1]) && RepeatsInBlock(es[..|es| - 1], es[|es| - 1])
  }

  lemma {:induction false} RankBelowCount(es: seq<RawEvent>, id: string)
    requires id in IdsOf(es)
    ensures Rank(es, id) < |IdsOf(es)|
  {
    var n := |es| - 1;
    SubsetSize(IdsOf(es[..n]), IdsOf(es));
    if id in IdsOf(es[..n]) { RankBelowCount(es[..n], id); }
  }

  /** The window holds ids of the stream, so a first occurrence always gets through. */
  lemma {:induction false} WindowWithinIds(es: seq<RawEvent>)
    ensures Run(FRESH, es).window <= IdsOf(es)
  {
    if es != [] { WindowWithinIds(es[..|es| - 1]); }
  }

  ghost predicate InCurrentBlock(es: seq<RawEvent>, id: string) {
    id in IdsOf(es) && Block(Rank(es, id)) == Block(|IdsOf(es)|)
  }

  /** The window is what the current block has seen. */
  ghost predicate WindowIsBlock(es: seq<RawEvent>) {
    && (forall id :: id in Run(FRESH, es).window <==> InCurrentBlock(es, id))
    && |Run(FRESH, es).window| == |IdsOf(es)| % (WINDOW_LIMIT + 1)
  }

  lemma OldRankStays(init: seq<RawEvent>, e: RawEvent, id: string)
    requires id in IdsOf(init)
    ensures id in IdsOf(init + [e]) && Rank(init + [e], id) == Rank(init, id)
  {
    assert (init + [e])[..|init|] == init;
  }

  lemma NewRank(init: seq<RawEvent>, e: RawEvent)
    requires EventId(e).Some? && EventId(e).value !in IdsOf(init)
    ensures IdsOf(init + [e]) == IdsOf(init) + {EventId(e).value}
    ensures |IdsOf(init + [e])| == |IdsOf(init)| + 1
    ensures Rank(init + [e], EventId(e).value) == |IdsOf(init)|
  {
    assert (init + [e])[..|init|] == init;
  }

  lemma NextBlock(count: nat)
    ensures Block(count + 1) == if count % (WINDOW_LIMIT + 1) == WINDOW_LIMIT then Block(count) + 1 else Block(count)
    ensures (count + 1) % (WINDOW_LIMIT + 1)
         == if count % (WINDOW_LIMIT + 1) == WINDOW_LIMIT then 0 else count % (WINDOW_LIMIT + 1) + 1
  {
  }

  lemma RunSnoc(st: State, init: seq<RawEvent>, e: RawEvent)
    ensures Run(st, init + [e]) == Next(Run(st, init), e)
    ensures Emitted(st, init + [e])
         == Emitted(st, init) + if IsDuplicate(Run(st, init), e) then [] else [Normalize(Run(st, init), e)]
  {
    assert (init + [e])[..|init|] == init;
  }

  /** After a new id an older one is in the current block if it was and the block is not full. */
  lemma BlockAfterNewId(init: seq<RawEvent>, e: RawEvent, id: string)
    requires EventId(e).Some? && EventId(e).value !in IdsOf(init) && id in IdsOf(init)
    ensures InCurrentBlock(init + [e], id)
            <==> InCurrentBlock(init, id) && |IdsOf(init)| % (WINDOW_LIMIT + 1) != WINDOW_LIMIT
  {
    NewRank(init, e);
    NextBlock(|IdsOf(init)|);
    OldRankStays(init, e, id);
    RankBelowCount(init, id);
    BlockIsMonotone(Rank(init, id), |IdsOf(init)|);
  }

  lemma BlockIsMonotone(a: nat, b: nat)
    requires a <= b
    ensures Block(a) <= Block(b)
  {
  }

  lemma NewIdKeepsBlock(init: seq<RawEvent>, e: RawEvent)
    requires WindowIsBlock(init) && EventId(e).Some? && EventId(e).value !in IdsOf(init)
    ensures WindowIsBlock(init + [e])
  {
    var es := init + [e];
    RunSnoc(FRESH, init, e);
    NewRank(init, e);
    NextBlock(|IdsOf(init)|);
    WindowWithinIds(init);
    forall id ensures id in Run(FRESH, es).window <==> InCurrentBlock(es, id) {
      if id in IdsOf(init) { BlockAfterNewId(init, e, id); }
    }
  }

  lemma OldIdKeepsBlock(init: seq<RawEvent>, e: RawEvent)
    requires WindowIsBlock(init) && RepeatsInBlock(init, e)
    requires EventId(e).None? || EventId(e).value in IdsOf(init)
    ensures WindowIsBlock(init + [e])
  {
    var es := init + [e];
    RunSnoc(FRESH, init, e);
    assert IdsOf(es) == IdsOf(init) by { assert es[..|init|] == init; }
    assert Run(FRESH, es).window == Run(FRESH, init).window;
    forall id | id in IdsOf(init) ensures Rank(es, id) == Rank(init, id) {
      OldRankStays(init, e, id);
    }
  }

  /** While repeats stay in their block, the window is the block. */
  lemma {:induction false} WindowFollowsBlocks(es: seq<RawEvent>)
    requires RepeatsStayInBlock(es)
    ensures WindowIsBlock(es)
  {
    if es != [] {
      var init, e := es[..|es| - 1], es[|es| - 1];
      WindowFollowsBlocks(init);
      assert es == init + [e];
      if EventId(e).Some? && EventId(e).value !in IdsOf(init) {
        NewIdKeepsBlock(init, e);
      } else {
        OldIdKeepsBlock(init, e);
      }
    }
  }

  predicate IsRepeat(before: seq<RawEvent>, e: RawEvent) {
    EventId(e).Some? && EventId(e).value in IdsOf(before)
  }

  lemma FirstOccurrencesSnoc(init: seq<RawEvent>, e: RawEvent)
    ensures |FirstOccurrences(init + [e])| == |FirstOccurrences(init)| + if IsRepeat(init, e) then 0 else 1
    ensures FirstOccurrences(init) <= FirstOccurrences(init + [e])
  {
    assert (init + [e])[..|init|] == init;
  }

  /** The stream emits at least the first occurrences; once it has emitted more, it stays ahead. */
  lemma {:induction false} NeverFewer(es: seq<RawEvent>)
    ensures |Emitted(FRESH, es)| >= |FirstOccurrences(es)|
    ensures es != [] ==> |Emitted(FRESH, es)| - |FirstOccurrences(es)|
                         >= |Emitted(FRESH, es[..|es| - 1])| - |FirstOccurrences(es[..|es| - 1])|
  {
    if es != [] {
      var init, e := es[..|es| - 1], es[|es| - 1];
      assert es == init + [e];
      NeverFewer(init);
      WindowWithinIds(init);
      RunSnoc(FRESH, init, e);
      FirstOccurrencesSnoc(init, e);
    }
  }

  /** One more event: the stream stays exact when the event is suppressed just in case it repeats an id. */
  lemma ExactSnoc(init: seq<RawEvent>, e: RawEvent)
    requires Emitted(FRESH, init) == FirstOccurrences(init)
    ensures Emitted(FRESH, init + [e]) == FirstOccurrences(init + [e])
            <==> (IsDuplicate(Run(FRESH, init), e) <==> IsRepeat(init, e))
  {
    assert (init + [e])[..|init|] == init;
    RunSnoc(FRESH, init, e);
    NumberedConsecutively(FRESH, init);
  }

  lemma InexactStays(init: seq<RawEvent>, e: RawEvent)
    requires Emitted(FRESH, init) != FirstOccurrences(init)
    ensures Emitted(FRESH, init + [e]) != FirstOccurrences(init + [e])
  {
    var es := init + [e];
    assert es[..|init|] == init;
    NeverFewer(init);
    NeverFewer(es);
    RunSnoc(FRESH, init, e);
    FirstOccurrencesSnoc(init, e);
  }

  /** The stream emits exactly the first occurrences when, and only when, every repeated id comes back before 101
      different ids, counted in blocks from the start, have pushed it out. */
  lemma {:induction false} ExactIffRepeatsStayInBlock(es: seq<RawEvent>)
    ensures Emitted(FRESH, es) == FirstOccurrences(es) <==> RepeatsStayInBlock(es)
  {
    if es != [] {
      var init, e := es[..|es| - 1], es[|es| - 1];
      assert es == init + [e];
      ExactIffRepeatsStayInBlock(init);
      if RepeatsStayInBlock(init) {
        WindowFollowsBlocks(init);
        WindowWithinIds(init);
        ExactSnoc(init, e);
      } else {
        InexactStays(init, e);
      }
    }
  }

  /** The 101st id empties the window with itself in it: repeated at once, it gets through again. */
  lemma OneIdTooMany(es: seq<RawEvent>, e: RawEvent)
    requires |IdsOf(es)| == WINDOW_LIMIT
    requires EventId(e).Some? && EventId(e).value !in IdsOf(es)
    ensures EmittedAt(FRESH, es + [e, e], |es|) && EmittedAt(FRESH, es + [e, e], |es| + 1)
    ensures |Emitted(FRESH, es + [e, e])| == |FirstOccurrences(es + [e, e])| + 1
  {
    var one, two := es + [e], es + [e, e];
    assert two[..|es|] == es && two[..|es| + 1] == one && one[..|es|] == es;
    ShortStreamsAreExact(es);
    assert Run(FRESH, one).window == {};
    assert IdsOf(one) == IdsOf(es) + {EventId(e).value};
  }

  // ----- on the payload itself -----

  /** The stream so far lets event j through. */
  ghost predicate LetsThrough(es: seq<RawEvent>, j: nat)
    requires j < |es|
  {
    |Emitted(FRESH, es[..j + 1])| == |Emitted(FRESH, es[..j])| + 1
  }

  ghost predicate Suppresses(es: seq<RawEvent>, j: nat)
    requires j < |es|
  {
    Emitted(FRESH, es[..j + 1]) == Emitted(FRESH, es[..j])
  }

  lemma {:induction false} FewIds(es: seq<RawEvent>)
    ensures |IdsOf(es)| <= |es|
  {
    if es != [] { FewIds(es[..|es| - 1]); }
  }

  lemma {:induction false} IdOfMember(es: seq<RawEvent>, i: nat)
    requires i < |es| && EventId(es[i]).Some?
    ensures EventId(es[i]).value in IdsOf(es)
  {
    if i < |es| - 1 {
      assert es[..|es| - 1][i] == es[i];
      IdOfMember(es[..|es| - 1], i);
    }
  }

  lemma {:induction false} MemberOfIds(es: seq<RawEvent>, id: string) returns (i: nat)
    requires id in IdsOf(es)
    ensures i < |es| && EventId(es[i]) == Some(id)
  {
    var n := |es| - 1;
    if EventId(es[n]) == Some(id) { i := n; } else { i := MemberOfIds(es[..n], id); }
  }

  /** Among the first 100 events one is let through unless an earlier one has its id. */
  lemma EarlyEvents(es: seq<RawEvent>, j: nat)
    requires j < |es| && j <= 100
    ensures (exists i :: 0 <= i < j && EventId(es[i]).Some? && EventId(es[i]) == EventId(es[j])) ==> Suppresses(es, j)
    ensures (forall i :: 0 <= i < j && EventId(es[i]).Some? ==> EventId(es[i]) != EventId(es[j])) ==> LetsThrough(es, j)
  {
    var before := es[..j];
    assert es[..j + 1] == before + [es[j]];
    RunSnoc(FRESH, before, es[j]);
    FewIds(before);
    ShortStreamsAreExact(before);
    if i :| 0 <= i < j && EventId(es[i]).Some? && EventId(es[i]) == EventId(es[j]) {
      assert before[i] == es[i];
      IdOfMember(before, i);
    }
    if EventId(es[j]).Some? && EventId(es[j]).value in IdsOf(before) {
      var i := MemberOfIds(before, EventId(es[j]).value);
      assert es[i] == before[i];
    }
  }

  /** A fresh stream of at most 100 events whose "id" entries are not empty and all different is emitted whole, whatever
      their "message_id" entries are. */
  lemma {:induction false} DifferentIdsAreEmitted(es: seq<RawEvent>)
    requires |es| <= 100
    requires forall i :: 0 <= i < |es| ==> "id" in es[i].data && es[i].data["id"] != ""
    requires forall i, j :: 0 <= i < j < |es| ==> es[i].data["id"] != es[j].data["id"]
    ensures |Emitted(FRESH, es)| == |es|
    ensures forall i :: 0 <= i < |es| ==> Emitted(FRESH, es)[i].raw == es[i] && Emitted(FRESH, es)[i].sequence == i
  {
    if es != [] {
      var n := |es| - 1;
      DifferentIdsAreEmitted(es[..n]);
      EarlyEvents(es, n);
      assert es[..n + 1] == es;
      NumberedConsecutively(FRESH, es);
    }
  }

  /** Of two of the first 101 events with the same non-empty "id" the later is suppressed, whatever their
      "message_id". */
  lemma SameIdIsSuppressed(es: seq<RawEvent>, i: nat, j: nat)
    requires i < j < |es| && j <= 100 && "id" in es[i].data && "id" in es[j].data
    requires es[i].data["id"] == es[j].data["id"] != ""
    ensures Suppresses(es, j)
  {
    EarlyEvents(es, j);
  }

  /** Without an "id" entry the "message_id" decides: the same one is suppressed, a new one is let through. */
  lemma MessageIdDecidesWithoutId(es: seq<RawEvent>, j: nat)
    requires j < |es| && j <= 100 && forall i :: 0 <= i <= j ==> "id" !in es[i].data && "message_id" in es[i].data
    requires es[j].data["message_id"] != ""
    ensures Suppresses(es, j) <==> exists i :: 0 <= i < j && es[i].data["message_id"] == es[j].data["message_id"]
  {
    EarlyEvents(es, j);
    if i :| 0 <= i < j && es[i].data["message_id"] == es[j].data["message_id"] {
      assert EventId(es[i]) == EventId(es[j]);
    }
  }

  /** An event with an empty "id", or with neither entry, is never suppressed, even when its "message_id" repeats. */
  lemma NoIdIsLetThrough(es: seq<RawEvent>, j: nat)
    requires j < |es|
    requires if "id" in es[j].data then es[j].data["id"] == ""
             else "message_id" in es[j].data ==> es[j].data["message_id"] == ""
    ensures LetsThrough(es, j)
  {
    assert es[..j + 1] == es[..j] + [es[j]];
    RunSnoc(FRESH, es[..j], es[j]);
  }

  /** Which events are heartbeats and which end a stream. */
  lemma EventKinds(st: State, e: RawEvent)
    ensures Normalize(st, e).raw == e
    ensures Normalize(st, e).isHeartbeat <==> e.eventType == "heartbeat" || e.eventType == "stream.heartbeat"
    ensures Next(st, e).terminal
            <==> st.terminal
                 || e.eventType == "message.completed" || e.eventType == "message.failed"
                 || e.eventType == "message.cancelled"
                 || e.eventType == "execution.completed" || e.eventType == "execution.failed"
  {
  }
}
