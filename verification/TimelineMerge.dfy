/** A turn streamed live and then repeated by history merges into one item per message. */
module TimelineMerge {
  import opened Records
  import opened Timeline
  import opened TimelineTheorems
  import opened TimelineLive

  // ----- what history repeats -----

  function ItemEvents(events: seq<Event>): (r: seq<Event>)
    ensures forall e :: e in r <==> e in events && UiTypeOf(e).Some?
  {
    if events == [] then []
    else
      var last := events[|events| - 1];
      assert events == events[..|events| - 1] + [last];
      ItemEvents(events[..|events| - 1]) + if UiTypeOf(last).Some? then [last] else []
  }

  /** A saved message: its own id, a text, no attachments. */
  ghost predicate SavedMessage(e: Event) {
    UiTypeOf(e).Some? ==>
      && e.source == CodexHistory && ItemId(e) != "" && !HasAttachments(e.data)
      && UiTypeOf(e).value.IsMessage() && e.kind != AgentDelta && TextOf(e) != ""
  }

  predicate Says(s: ItemState, h: Event) {
    UiTypeOf(h) == Some(s.uiType) && s.text == TextOf(h)
  }

  /** The live messages have texts, pairwise distinct per type. */
  ghost predicate DistinctTexts(states: seq<ItemState>) {
    && (forall s | s in states :: s.uiType.IsMessage() && s.text != "")
    && forall i, j | 0 <= i < j < |states| :: states[i].uiType != states[j].uiType || states[i].text != states[j].text
  }

  /** Two saved items differ in id and in what they say. */
  predicate Apart(g: Event, h: Event) {
    ItemId(g) != ItemId(h) && (UiTypeOf(g) != UiTypeOf(h) || TextOf(g) != TextOf(h))
  }

  ghost predicate SavedApart(saved: seq<Event>) {
    forall i, j | 0 <= i < j < |saved| :: Apart(saved[i], saved[j])
  }

  ghost predicate Heard(states: seq<ItemState>, h: Event) {
    exists s :: s in states && Says(s, h)
  }

  ghost predicate Repeated(s: ItemState, saved: seq<Event>) {
    exists h :: h in saved && Says(s, h)
  }

  /** History names each live message once, under ids of its own, in any order. */
  ghost predicate Repeats(saved: seq<Event>, states: seq<ItemState>) {
    && (forall h | h in saved :: Heard(states, h))
    && (forall s | s in states :: Repeated(s, saved))
    && SavedApart(saved)
  }

  /** The position of the message a saved item repeats. */
  function SaidAt(states: seq<ItemState>, h: Event): (found: Option<nat>)
    ensures found.Some? ==> found.value < |states| && Says(states[found.value], h)
    ensures found.None? <==> forall s | s in states :: !Says(s, h)
  {
    if states == [] then None
    else
      var n := |states| - 1;
      assert states == states[..n] + [states[n]];
      if Says(states[n], h) then Some(n) else SaidAt(states[..n], h)
  }

  /** The history id a message has been given. */
  function SavedId(saved: seq<Event>, s: ItemState): (id: Option<string>)
    ensures id.None? <==> forall h | h in saved :: !Says(s, h)
    ensures id.Some? ==> exists h :: h in saved && Says(s, h) && ItemId(h) == id.value
  {
    if saved == [] then None
    else
      var last := saved[|saved| - 1];
      assert saved == saved[..|saved| - 1] + [last];
      if Says(s, last) then assert last in saved; Some(ItemId(last)) else SavedId(saved[..|saved| - 1], s)
  }

  function Merged(s: ItemState, saved: seq<Event>): ItemState {
    match SavedId(saved, s)
    case None => s
    case Some(id) => s.(sourceIds := s.sourceIds[CodexHistory := id])
  }

  function MergedAll(states: seq<ItemState>, saved: seq<Event>): (r: seq<ItemState>)
    ensures |r| == |states| && forall i | 0 <= i < |r| :: r[i] == Merged(states[i], saved)
  {
    seq(|states|, i requires 0 <= i < |states| => Merged(states[i], saved))
  }

  /** The aliases suggested for the saved items, in their order. */
  function Links(states: seq<ItemState>, saved: seq<Event>, turn: string): seq<AliasLink> {
    if saved == [] then []
    else
      var h := saved[|saved| - 1];
      var earlier := Links(states, saved[..|saved| - 1], turn);
      match SaidAt(states, h)
      case None => earlier
      case Some(i) => earlier + [AliasLink(turn, states[i].target, Some(CodexHistory), ItemId(h))]
  }

  /** Live items only. */
  ghost predicate StreamOnly(states: seq<ItemState>) {
    forall s | s in states :: s.sourceIds.Keys == {CodexStream} && !s.unresolved
  }

  // ----- the first pass over history -----

  ghost predicate HistoryIndexed(bySource: map<SourceId, nat>, saved: seq<Event>) {
    forall id | SourceId(CodexHistory, id) in bySource :: exists h :: h in saved && ItemId(h) == id
  }

  ghost predicate MergeShape(ts: TurnState, states: seq<ItemState>, saved: seq<Event>, turn: string) {
    && ts.states == MergedAll(states, saved)
    && HistoryIndexed(ts.bySource, saved)
    && ts.suggestions == Links(states, saved, turn)
  }

  lemma {:induction false} OneCrossMatch(states: seq<ItemState>, ui: UiType, e: Event, i: nat)
    requires i < |states| && CrossMatch(states[i], ui, e)
    requires forall k | 0 <= k < |states| && k != i :: !CrossMatch(states[k], ui, e)
    ensures CrossMatches(states, ui, e) == [i]
  {
    var n := |states| - 1;
    if i < n {
      OneCrossMatch(states[..n], ui, e, i);
    } else {
      NoCrossMatches(states[..n], ui, e);
    }
  }

  lemma SameContentKept(s: ItemState, ui: UiType, h: Event)
    requires SavedMessage(h) && UiTypeOf(h) == Some(ui) && s.text == TextOf(h)
    ensures Content(s, ui, h) == s
  {
  }

  /** A saved item that repeats exactly one unclaimed message claims it. */
  lemma FindsMessage(ts: TurnState, states: seq<ItemState>, saved: seq<Event>, turn: string, h: Event, i: nat)
    requires ts.Valid() && StreamOnly(states) && DistinctTexts(states) && MergeShape(ts, states, saved, turn)
    requires SavedMessage(h) && UiTypeOf(h).Some? && SaidAt(states, h) == Some(i)
    requires SavedId(saved, states[i]) == None
    requires forall o | o in saved :: ItemId(o) != ItemId(h)
    ensures FindOwn(ts, UiTypeOf(h).value, h) == None && FindCross(ts, UiTypeOf(h).value, h) == Some(i)
  {
    var ui := UiTypeOf(h).value;
    forall k | 0 <= k < |ts.states| ensures CrossMatch(ts.states[k], ui, h) <==> k == i {
      assert ts.states[k] == Merged(states[k], saved);
      assert states[k] in states;
    }
    OneCrossMatch(ts.states, ui, h, i);
  }

  lemma MergeStep(ts: TurnState, states: seq<ItemState>, saved: seq<Event>, turn: string, h: Event, aliases: Aliases)
    requires ts.Valid() && StreamOnly(states) && DistinctTexts(states) && MergeShape(ts, states, saved, turn)
    requires SavedMessage(h) && UiTypeOf(h).Some? && SaidAt(states, h).Some?
    requires SavedId(saved, states[SaidAt(states, h).value]) == None
    requires forall o | o in saved :: ItemId(o) != ItemId(h)
    ensures MergeShape(Apply(ts, h, aliases, turn), states, saved + [h], turn)
  {
    var i, ui := SaidAt(states, h).value, UiTypeOf(h).value;
    FindsMessage(ts, states, saved, turn, h, i);
    assert ts.states[i] == states[i];
    SameContentKept(Claimed(ts, i, h).states[i], ui, h);
    ApplyCross(ts, h, i, aliases, turn);
    hide Apply, FindOwn, FindCross, Content, MergeShape, StreamOnly;
    ClaimShape(ts, states, saved, turn, h, i);
  }

  lemma ClaimShape(ts: TurnState, states: seq<ItemState>, saved: seq<Event>, turn: string, h: Event, i: nat)
    requires ts.Valid() && DistinctTexts(states) && MergeShape(ts, states, saved, turn)
    requires SaidAt(states, h) == Some(i) && ts.states[i] == states[i]
    requires h.source == CodexHistory && ItemId(h) != ""
    ensures MergeShape(Suggested(Claimed(ts, i, h), i, h, turn), states, saved + [h], turn)
  {
    hide SavedId, SaidAt, Says, DistinctTexts;
    var after := Suggested(Claimed(ts, i, h), i, h, turn);
    assert (saved + [h])[..|saved|] == saved;
    forall k | 0 <= k < |states| ensures after.states[k] == Merged(states[k], saved + [h]) {
      SavedIdSnoc(saved, h, states, k);
      assert ts.states[k] == Merged(states[k], saved);
    }
    assert after.states == MergedAll(states, saved + [h]);
    forall id | SourceId(CodexHistory, id) in after.bySource ensures exists o :: o in saved + [h] && ItemId(o) == id {
      if id == ItemId(h) {
        assert h in saved + [h];
      } else {
        var o :| o in saved && ItemId(o) == id;
        assert o in saved + [h];
      }
    }
  }

  lemma ApplyCross(ts: TurnState, h: Event, i: nat, aliases: Aliases, turn: string)
    requires ts.Valid() && UiTypeOf(h).Some? && ItemId(h) != "" && i < |ts.states|
    requires FindOwn(ts, UiTypeOf(h).value, h) == None && FindCross(ts, UiTypeOf(h).value, h) == Some(i)
    requires Content(Claimed(ts, i, h).states[i], UiTypeOf(h).value, h) == Claimed(ts, i, h).states[i]
    ensures Apply(ts, h, aliases, turn) == Suggested(Claimed(ts, i, h), i, h, turn)
  {
  }

  lemma SavedIdSnoc(saved: seq<Event>, h: Event, states: seq<ItemState>, k: nat)
    requires k < |states| && DistinctTexts(states) && SaidAt(states, h).Some?
    ensures SavedId(saved + [h], states[k])
      == if k == SaidAt(states, h).value then Some(ItemId(h)) else SavedId(saved, states[k])
  {
  }

  /** After any part of the history, exactly the messages it repeated carry its ids. */
  lemma {:induction false} MergePass(
      start: TurnState, history: seq<Event>, aliases: Aliases, turn: string)
    requires start.Valid() && StreamOnly(start.states) && DistinctTexts(start.states) && start.suggestions == []
    requires forall id :: SourceId(CodexHistory, id) !in start.bySource
    requires forall e | e in history :: SavedMessage(e)
    requires SavedApart(ItemEvents(history))
    requires forall h | h in ItemEvents(history) :: Heard(start.states, h)
    ensures MergeShape(TurnFold(start, history, aliases, turn), start.states, ItemEvents(history), turn)
    decreases |history|
  {
    if history == [] {
      assert MergedAll(start.states, []) == start.states;
    } else {
      hide Apply, MergeShape, StreamOnly, DistinctTexts, SavedMessage, Heard, ItemEvents, UiTypeOf, SaidAt, SavedId;
      var n := |history| - 1;
      var front, h := history[..n], history[n];
      var saved := ItemEvents(front);
      ItemEventsLast(history);
      if UiTypeOf(h).Some? {
        ApartLast(saved, h);
      } else {
        assert ItemEvents(history) == saved;
      }
      MergePass(start, front, aliases, turn);
      var ts := TurnFold(start, front, aliases, turn);
      assert TurnFold(start, history, aliases, turn) == Apply(ts, h, aliases, turn);
      if UiTypeOf(h).Some? {
        HeardAt(start.states, saved, h);
        MergeStep(ts, start.states, saved, turn, h, aliases);
        assert ItemEvents(history) == saved + [h];
      } else {
        QuietStep(ts, h, start.states, saved, aliases, turn);
        assert ItemEvents(history) == saved;
      }
    }
  }

  lemma QuietStep(ts: TurnState, e: Event, states: seq<ItemState>, saved: seq<Event>, aliases: Aliases, turn: string)
    requires ts.Valid() && UiTypeOf(e).None? && MergeShape(ts, states, saved, turn)
    ensures MergeShape(Apply(ts, e, aliases, turn), states, saved, turn)
  {
  }

  lemma ItemEventsLast(history: seq<Event>)
    requires history != []
    ensures var n := |history| - 1;
      ItemEvents(history) == ItemEvents(history[..n]) + if UiTypeOf(history[n]).Some? then [history[n]] else []
  {
  }

  lemma ApartLast(saved: seq<Event>, h: Event)
    requires SavedApart(saved + [h])
    ensures SavedApart(saved) && forall o | o in saved :: Apart(o, h)
  {
    hide Apart;
    assert forall i | 0 <= i < |saved| :: (saved + [h])[i] == saved[i];
    assert (saved + [h])[|saved|] == h;
  }

  /** A saved item apart from the earlier ones finds a message no earlier one named. */
  lemma HeardAt(states: seq<ItemState>, saved: seq<Event>, h: Event)
    requires Heard(states, h) && forall o | o in saved :: Apart(o, h)
    ensures SaidAt(states, h).Some? && SavedId(saved, states[SaidAt(states, h).value]) == None
  {
  }

  // ----- the first materialization -----

  /** The live events of a turn are messages of the stream. */
  ghost predicate LiveMessage(e: Event, aliases: Aliases) {
    && LiveEvent(e, aliases) && e.eventId !in aliases
    && (UiTypeOf(e).Some? ==> UiTypeOf(e).value.IsMessage())
  }

  /** A turn: its live messages, then the same messages from history. */
  ghost predicate StreamedThenSaved(live: seq<Event>, history: seq<Event>, aliases: Aliases, turn: string) {
    var states := TurnFold(NEW_TURN, live, aliases, turn).states;
    && (forall e | e in live :: LiveMessage(e, aliases))
    && (forall e | e in history :: SavedMessage(e))
    && DistinctTexts(states)
    && Repeats(ItemEvents(history), states)
  }

  lemma LiveStart(live: seq<Event>, aliases: Aliases, turn: string)
    requires forall e | e in live :: LiveMessage(e, aliases)
    ensures var ts := TurnFold(NEW_TURN, live, aliases, turn);
      && StreamOnly(ts.states) && ts.suggestions == []
      && (forall id :: SourceId(CodexHistory, id) !in ts.bySource)
  {
    LiveTurnShape(live, aliases, turn);
    LiveNoHistory(live, aliases, turn);
    var ts, ids := TurnFold(NEW_TURN, live, aliases, turn), FirstIds(live);
    forall s | s in ts.states ensures s.sourceIds.Keys == {CodexStream} && !s.unresolved {
      var i :| 0 <= i < |ts.states| && ts.states[i] == s;
      assert IsOwnItem(s, Own(live, ids[i]), ids[i], aliases);
      OwnFacts(live, ids[i]);
      assert Own(live, ids[i])[0] in Own(live, ids[i]);
    }
  }

  lemma {:induction false} LiveNoHistory(live: seq<Event>, aliases: Aliases, turn: string)
    requires forall e | e in live :: LiveMessage(e, aliases)
    ensures forall id :: SourceId(CodexHistory, id) !in TurnFold(NEW_TURN, live, aliases, turn).bySource
    decreases |live|
  {
    if live != [] {
      hide Apply, FindOwn, FindCross;
      var front, e := live[..|live| - 1], live[|live| - 1];
      assert e in live;
      LiveNoHistory(front, aliases, turn);
      LiveTurnShape(front, aliases, turn);
      LiveIndexStep(TurnFold(NEW_TURN, front, aliases, turn), front, aliases, e, turn);
    }
  }

  /** A live event adds at most its own id and its aliases to the index. */
  lemma LiveIndexStep(ts: TurnState, events: seq<Event>, aliases: Aliases, e: Event, turn: string)
    requires ts.Valid() && LiveShape(ts, events, aliases) && LiveEvent(e, aliases)
    requires forall o | o in events :: LiveEvent(o, aliases)
    ensures UiTypeOf(e).None? || ItemId(e) in FirstIds(events) ==> Apply(ts, e, aliases, turn).bySource == ts.bySource
    ensures UiTypeOf(e).Some? && ItemId(e) !in FirstIds(events) ==>
      Apply(ts, e, aliases, turn).bySource == ts.bySource + IndexOf(InitialIds(e, aliases), |ts.states|)
  {
    if UiTypeOf(e).Some? {
      FindsOwn(ts, events, aliases, e);
      if ItemId(e) in FirstIds(events) {
        var i := FindOwn(ts, UiTypeOf(e).value, e).value;
        ExtendsOwnItem(ts.states[i], events, e, ItemId(e), aliases);
        ApplyKnown(ts, e, i, aliases, turn);
      } else {
        ApplyNew(ts, e, aliases, turn);
      }
    }
  }

  /** One item per live message, each with both its ids and none unresolved, and one suggestion per saved message. */
  lemma FirstPass(live: seq<Event>, history: seq<Event>, aliases: Aliases, turn: string)
    requires StreamedThenSaved(live, history, aliases, turn)
    ensures var states := TurnFold(NEW_TURN, live, aliases, turn).states;
      var ts := TurnFold(NEW_TURN, live + history, aliases, turn);
      && ts.states == MergedAll(states, ItemEvents(history))
      && ts.suggestions == Links(states, ItemEvents(history), turn)
      && (forall s | s in ts.states :: s.sourceIds.Keys == {CodexStream, CodexHistory} && !s.unresolved)
  {
    var saved := ItemEvents(history);
    LiveStart(live, aliases, turn);
    TurnFoldConcat(NEW_TURN, live, history, aliases, turn);
    var start := TurnFold(NEW_TURN, live, aliases, turn);
    MergePass(start, history, aliases, turn);
    hide TurnFold, MergedAll, Repeats;
    BothIds(start.states, saved);
  }

  lemma BothIds(states: seq<ItemState>, saved: seq<Event>)
    requires StreamOnly(states) && Repeats(saved, states)
    ensures forall s | s in MergedAll(states, saved) :: s.sourceIds.Keys == {CodexStream, CodexHistory} && !s.unresolved
  {
    hide Merged, Repeated;
    forall s | s in MergedAll(states, saved) ensures s.sourceIds.Keys == {CodexStream, CodexHistory} && !s.unresolved {
      var i :| 0 <= i < |states| && s == Merged(states[i], saved);
      BothIdsOf(states[i], saved);
    }
  }

  lemma BothIdsOf(s: ItemState, saved: seq<Event>)
    requires s.sourceIds.Keys == {CodexStream} && !s.unresolved && Repeated(s, saved)
    ensures Merged(s, saved).sourceIds.Keys == {CodexStream, CodexHistory} && !Merged(s, saved).unresolved
  {
  }
}
