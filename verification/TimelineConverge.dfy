/** Attaching the suggested aliases and materializing again gives the same items and suggests nothing more. */
module TimelineConverge {
  import opened Records
  import opened Timeline
  import opened TimelineTheorems
  import opened TimelineLive
  import opened TimelineMerge

  // ----- aliases that name each message's saved id -----

  /** The event that created an item. */
  ghost predicate Creates(e: Event, states: seq<ItemState>, i: nat) {
    i < |states| && states[i].target == e.eventId
  }

  /** The live events that have an alias are those that created the items, and the alias is the saved id. */
  ghost predicate Fits(aliases: Aliases, states: seq<ItemState>, saved: seq<Event>, live: seq<Event>) {
    && (forall i | 0 <= i < |states| ::
          states[i].target in aliases && SavedId(saved, states[i]).Some?
          && aliases[states[i].target] == map[CodexHistory := SavedId(saved, states[i]).value])
    && (forall e | e in live && e.eventId in aliases :: exists i :: Creates(e, states, i))
  }

  /** Distinct events are given distinct saved ids. */
  ghost predicate DistinctAliases(aliases: Aliases, live: seq<Event>) {
    && (forall e | e in live && e.eventId in aliases :: aliases[e.eventId].Keys == {CodexHistory})
    && forall d, e | d in live && e in live && d.eventId != e.eventId && d.eventId in aliases && e.eventId in aliases ::
      aliases[d.eventId] != aliases[e.eventId]
  }

  /** Different messages are repeated by different saved items. */
  lemma SavedIdsDiffer(states: seq<ItemState>, saved: seq<Event>, i: nat, j: nat)
    requires i < j < |states| && DistinctTexts(states) && SavedApart(saved)
    requires SavedId(saved, states[i]).Some? && SavedId(saved, states[j]).Some?
    ensures SavedId(saved, states[i]) != SavedId(saved, states[j])
  {
    var g :| g in saved && Says(states[i], g) && ItemId(g) == SavedId(saved, states[i]).value;
    var h :| h in saved && Says(states[j], h) && ItemId(h) == SavedId(saved, states[j]).value;
    var a :| 0 <= a < |saved| && saved[a] == g;
    var b :| 0 <= b < |saved| && saved[b] == h;
    hide SavedId;
    assert a < b ==> Apart(saved[a], saved[b]);
    assert b < a ==> Apart(saved[b], saved[a]);
  }

  lemma SavedIdIs(states: seq<ItemState>, saved: seq<Event>, h: Event, i: nat)
    requires i < |states| && h in saved && Says(states[i], h) && SavedApart(saved)
    ensures SavedId(saved, states[i]) == Some(ItemId(h))
  {
    var g :| g in saved && Says(states[i], g) && ItemId(g) == SavedId(saved, states[i]).value;
    var a :| 0 <= a < |saved| && saved[a] == g;
    var b :| 0 <= b < |saved| && saved[b] == h;
    hide SavedId;
    assert a < b ==> Apart(saved[a], saved[b]);
    assert b < a ==> Apart(saved[b], saved[a]);
  }

  lemma FitsDistinct(aliases: Aliases, states: seq<ItemState>, saved: seq<Event>, live: seq<Event>)
    requires Fits(aliases, states, saved, live) && DistinctTexts(states) && SavedApart(saved)
    ensures DistinctAliases(aliases, live)
  {
    hide SavedId, DistinctTexts, SavedApart;
    forall e | e in live && e.eventId in aliases ensures aliases[e.eventId].Keys == {CodexHistory} {
      var i :| Creates(e, states, i);
    }
    forall d, e | d in live && e in live && d.eventId != e.eventId && d.eventId in aliases && e.eventId in aliases
      ensures aliases[d.eventId] != aliases[e.eventId]
    {
      var i: nat :| Creates(d, states, i);
      var j: nat :| Creates(e, states, j);
      if i < j {
        SavedIdsDiffer(states, saved, i, j);
      } else {
        SavedIdsDiffer(states, saved, j, i);
      }
      assert aliases[d.eventId][CodexHistory] != aliases[e.eventId][CodexHistory];
    }
  }

  // ----- the second pass over the live events -----

  /** Every aliased item is found by its saved id. */
  ghost predicate AliasIndexed(ts: TurnState, aliases: Aliases) {
    forall i | 0 <= i < |ts.states| && ts.states[i].target in aliases && CodexHistory in aliases[ts.states[i].target] ::
      var key := SourceId(CodexHistory, aliases[ts.states[i].target][CodexHistory]);
      key in ts.bySource && ts.bySource[key] == i
  }

  lemma {:induction false} LiveAliasIndexed(live: seq<Event>, aliases: Aliases, turn: string)
    requires Ordered(live) && DistinctAliases(aliases, live)
    requires forall e | e in live :: LiveEvent(e, aliases)
    ensures AliasIndexed(TurnFold(NEW_TURN, live, aliases, turn), aliases)
    decreases |live|
  {
    hide Apply, LiveShape, AliasIndexed, LiveEvent, UiTypeOf, FirstIds, Ordered, DistinctAliases;
    if live == [] {
      NothingAliasIndexed(aliases, turn);
    } else {
      var front, e := live[..|live| - 1], live[|live| - 1];
      FrontOf(live, aliases);
      LiveAliasIndexed(front, aliases, turn);
      LiveTurnShape(front, aliases, turn);
      FoldInOrder(front, aliases, turn);
      var ts := TurnFold(NEW_TURN, front, aliases, turn);
      if UiTypeOf(e).Some? && ItemId(e) !in FirstIds(front) {
        NewAliasIndexed(ts, live, front, aliases, e, turn);
      } else {
        KnownAliasIndexed(ts, front, aliases, e, turn);
      }
    }
  }

  lemma NothingAliasIndexed(aliases: Aliases, turn: string)
    ensures AliasIndexed(TurnFold(NEW_TURN, [], aliases, turn), aliases)
  {
  }

  lemma FrontOf(live: seq<Event>, aliases: Aliases)
    requires live != [] && Ordered(live) && DistinctAliases(aliases, live)
    ensures var front, e := live[..|live| - 1], live[|live| - 1];
      && live == front + [e] && e in live && (forall o | o in front :: o in live)
      && Ordered(front) && DistinctAliases(aliases, front)
  {
  }

  lemma KnownAliasIndexed(ts: TurnState, front: seq<Event>, aliases: Aliases, e: Event, turn: string)
    requires ts.Valid() && LiveShape(ts, front, aliases) && LiveEvent(e, aliases) && AliasIndexed(ts, aliases)
    requires forall o | o in front :: LiveEvent(o, aliases)
    requires UiTypeOf(e).None? || ItemId(e) in FirstIds(front)
    ensures AliasIndexed(Apply(ts, e, aliases, turn), aliases)
  {
    LiveIndexStep(ts, front, aliases, e, turn);
    ApplyKeepsItems(ts, e, aliases, turn);
    if UiTypeOf(e).Some? {
      FindsOwn(ts, front, aliases, e);
      var i := FindOwn(ts, UiTypeOf(e).value, e).value;
      ExtendsOwnItem(ts.states[i], front, e, ItemId(e), aliases);
      ApplyKnown(ts, e, i, aliases, turn);
    }
  }

  lemma NewAliasIndexed(ts: TurnState, live: seq<Event>, front: seq<Event>, aliases: Aliases, e: Event, turn: string)
    requires ts.Valid() && LiveShape(ts, front, aliases) && LiveEvent(e, aliases) && AliasIndexed(ts, aliases)
    requires live == front + [e] && Ordered(live) && DistinctAliases(aliases, live)
    requires UiTypeOf(e).Some? && ItemId(e) !in FirstIds(front)
    requires forall i | 0 <= i < |ts.states| :: CreatedIn(ts.states[i], front)
    ensures AliasIndexed(Apply(ts, e, aliases, turn), aliases)
  {
    hide Apply, FindOwn, FindCross, LiveShape, UiTypeOf, Ordered, NewItem;
    FindsOwn(ts, front, aliases, e);
    ApplyNew(ts, e, aliases, turn);
    var ui := UiTypeOf(e).value;
    var after := Apply(ts, e, aliases, turn);
    var n := |ts.states|;
    NewItemTarget(e, ui, aliases);
    forall i | 0 <= i < n && ts.states[i].target in aliases && CodexHistory in aliases[ts.states[i].target]
      ensures var key := SourceId(CodexHistory, aliases[ts.states[i].target][CodexHistory]);
        key in after.bySource && after.bySource[key] == i
    {
      var o :| o in front && o.eventId == ts.states[i].target && o.sequence == ts.states[i].firstSeq;
      AliasKeysApart(live, front, aliases, o, e);
    }
    assert after.states[n].target == e.eventId;
  }

  lemma NewItemTarget(e: Event, ui: UiType, aliases: Aliases)
    ensures NewItem(e, ui, aliases).target == e.eventId
  {
  }

  lemma AliasKeysApart(live: seq<Event>, front: seq<Event>, aliases: Aliases, o: Event, e: Event)
    requires live == front + [e] && Ordered(live) && DistinctAliases(aliases, live) && o in front
    requires o.eventId in aliases && CodexHistory in aliases[o.eventId] && e.source != CodexHistory
    ensures SourceId(CodexHistory, aliases[o.eventId][CodexHistory]) !in IndexOf(InitialIds(e, aliases), |front|)
  {
    var k :| 0 <= k < |front| && front[k] == o;
    assert live[k] == o && live[|front|] == e;
    assert o in live && e in live;
    if e.eventId in aliases {
      assert aliases[o.eventId].Keys == {CodexHistory} && aliases[e.eventId].Keys == {CodexHistory};
      assert aliases[o.eventId] != aliases[e.eventId];
    }
  }

  lemma FitsLive(aliases: Aliases, states: seq<ItemState>, saved: seq<Event>, live: seq<Event>, first: Aliases)
    requires Fits(aliases, states, saved, live)
    requires forall e | e in live :: LiveMessage(e, first)
    ensures forall e | e in live :: LiveEvent(e, aliases)
  {
  }

  /** With its alias attached, each item starts out as the merged one. */
  lemma SecondLivePass(live: seq<Event>, history: seq<Event>, first: Aliases, second: Aliases, turn: string)
    requires Ordered(live) && StreamedThenSaved(live, history, first, turn)
    requires var states := TurnFold(NEW_TURN, live, first, turn).states;
      Fits(second, states, ItemEvents(history), live)
    ensures var states := TurnFold(NEW_TURN, live, first, turn).states;
      var ts := TurnFold(NEW_TURN, live, second, turn);
      && ts.states == MergedAll(states, ItemEvents(history)) && ts.suggestions == []
      && AliasIndexed(ts, second)
  {
    hide TurnFold, ItemEvents, DistinctTexts, Heard, Repeated, SavedApart, AliasIndexed, MergedAll, LiveShape, Fits, LiveMessage,
      SavedMessage, Ordered;
    var states, saved := TurnFold(NEW_TURN, live, first, turn).states, ItemEvents(history);
    SecondIndexed(live, states, saved, first, second, turn);
    SecondItems(live, history, first, second, turn);
  }

  lemma SecondIndexed(
      live: seq<Event>, states: seq<ItemState>, saved: seq<Event>, first: Aliases, second: Aliases, turn: string)
    requires Ordered(live) && Fits(second, states, saved, live) && DistinctTexts(states) && SavedApart(saved)
    requires forall e | e in live :: LiveMessage(e, first)
    ensures AliasIndexed(TurnFold(NEW_TURN, live, second, turn), second)
    ensures forall e | e in live :: LiveEvent(e, second)
  {
    hide TurnFold, DistinctTexts, SavedApart, AliasIndexed, Fits, LiveMessage, LiveEvent, Ordered;
    FitsLive(second, states, saved, live, first);
    FitsDistinct(second, states, saved, live);
    LiveAliasIndexed(live, second, turn);
  }

  lemma LiveItemAt(live: seq<Event>, aliases: Aliases, turn: string, i: nat)
    requires forall e | e in live :: LiveEvent(e, aliases)
    ensures var states := TurnFold(NEW_TURN, live, aliases, turn).states;
      && |states| == |FirstIds(live)| && TurnFold(NEW_TURN, live, aliases, turn).suggestions == []
      && (i < |states| ==> IsOwnItem(states[i], Own(live, FirstIds(live)[i]), FirstIds(live)[i], aliases))
  {
    hide TurnFold, FirstIds, Own, IsOwnItem, LiveEvent, StreamIndex;
    LiveTurnShape(live, aliases, turn);
  }

  /** The same item in both passes. */
  lemma SecondItem(live: seq<Event>, history: seq<Event>, first: Aliases, second: Aliases, turn: string, i: nat)
    requires (forall e | e in live :: LiveMessage(e, first)) && forall e | e in live :: LiveEvent(e, second)
    requires var states := TurnFold(NEW_TURN, live, first, turn).states;
      i < |states| && Fits(second, states, ItemEvents(history), live)
    ensures var states, again := TurnFold(NEW_TURN, live, first, turn).states, TurnFold(NEW_TURN, live, second, turn).states;
      |again| == |states| && again[i] == Merged(states[i], ItemEvents(history))
  {
    hide TurnFold, FirstIds, Own, IsOwnItem, ItemEvents, LiveEvent, SavedId, Merged;
    assert forall e | e in live :: LiveMessage(e, first) && LiveEvent(e, first);
    LiveItemAt(live, first, turn, i);
    LiveItemAt(live, second, turn, i);
    var states, id := TurnFold(NEW_TURN, live, first, turn).states, FirstIds(live)[i];
    OwnUnaliased(live, id, first, states[i]);
    AliasedOwnItem(
      states[i], TurnFold(NEW_TURN, live, second, turn).states[i], Own(live, id), id, first, second, ItemEvents(history));
  }

  lemma OwnUnaliased(live: seq<Event>, id: string, first: Aliases, s: ItemState)
    requires (forall e | e in live :: LiveMessage(e, first)) && IsOwnItem(s, Own(live, id), id, first)
    ensures Own(live, id)[0].eventId !in first && s.target == Own(live, id)[0].eventId
  {
    hide LiveEvent, UiTypeOf;
    OwnFacts(live, id);
    assert Own(live, id)[0] in Own(live, id);
  }

  lemma SecondItems(live: seq<Event>, history: seq<Event>, first: Aliases, second: Aliases, turn: string)
    requires (forall e | e in live :: LiveMessage(e, first)) && forall e | e in live :: LiveEvent(e, second)
    requires Fits(second, TurnFold(NEW_TURN, live, first, turn).states, ItemEvents(history), live)
    ensures var ts := TurnFold(NEW_TURN, live, second, turn);
      ts.states == MergedAll(TurnFold(NEW_TURN, live, first, turn).states, ItemEvents(history)) && ts.suggestions == []
  {
    hide TurnFold, FirstIds, Own, IsOwnItem, ItemEvents, LiveEvent, Fits, Merged;
    var states, again := TurnFold(NEW_TURN, live, first, turn).states, TurnFold(NEW_TURN, live, second, turn).states;
    assert forall e | e in live :: LiveMessage(e, first) && LiveEvent(e, first);
    LiveItemAt(live, first, turn, 0);
    LiveItemAt(live, second, turn, 0);
    forall i | 0 <= i < |states| ensures again[i] == Merged(states[i], ItemEvents(history)) {
      SecondItem(live, history, first, second, turn, i);
    }
  }

  lemma AliasedOwnItem(s: ItemState, t: ItemState, own: seq<Event>, id: string, first: Aliases, second: Aliases, saved: seq<Event>)
    requires IsOwnItem(s, own, id, first) && IsOwnItem(t, own, id, second) && own[0].eventId !in first
    requires SavedId(saved, s).Some? && s.target in second && second[s.target] == map[CodexHistory := SavedId(saved, s).value]
    ensures t == Merged(s, saved)
  {
    hide SavedId, TextFold, PayloadFold;
    var saidBy := SavedId(saved, s).value;
    assert map[CodexStream := id] + map[CodexHistory := saidBy] == map[CodexStream := id][CodexHistory := saidBy];
  }

  // ----- the second pass over history -----

  /** A saved item whose message already carries its id and text. */
  ghost predicate Known(ts: TurnState, h: Event)
    requires ts.Valid()
  {
    var key := SourceId(h.source, ItemId(h));
    && ItemId(h) != "" && UiTypeOf(h).Some? && key in ts.bySource
    && (var i := ts.bySource[key];
        && h.source in ts.states[i].sourceIds && ts.states[i].sourceIds[h.source] == ItemId(h)
        && Content(ts.states[i], UiTypeOf(h).value, h) == ts.states[i])
  }

  lemma KnownChangesNothing(ts: TurnState, h: Event, aliases: Aliases, turn: string)
    requires ts.Valid() && Known(ts, h)
    ensures Apply(ts, h, aliases, turn) == ts
  {
    var i := ts.bySource[SourceId(h.source, ItemId(h))];
    ApplyKnown(ts, h, i, aliases, turn);
    assert ts.states[i := ts.states[i]] == ts.states;
  }

  /** Records that make no item, or whose item is known, leave the items as they are. */
  lemma {:induction false} SettledFold(ts: TurnState, rest: seq<Event>, aliases: Aliases, turn: string)
    requires ts.Valid() && forall h | h in rest && UiTypeOf(h).Some? :: Known(ts, h)
    ensures TurnFold(ts, rest, aliases, turn) == ts.(status := TurnFold(ts, rest, aliases, turn).status)
    decreases |rest|
  {
    if rest != [] {
      hide Content, FindOwn, FindCross;
      var front, h := rest[..|rest| - 1], rest[|rest| - 1];
      SettledFold(ts, front, aliases, turn);
      var before := TurnFold(ts, front, aliases, turn);
      if UiTypeOf(h).Some? {
        assert Known(ts, h);
        assert Known(before, h);
        KnownChangesNothing(before, h, aliases, turn);
      }
    }
  }

  lemma {:induction false} StatusIndependent(a: TurnState, b: TurnState, events: seq<Event>, first: Aliases, second: Aliases, turn: string)
    requires a.Valid() && b.Valid() && a.status == b.status
    ensures TurnFold(a, events, first, turn).status == TurnFold(b, events, second, turn).status
  {
    if events != [] {
      hide Placed;
      StatusIndependent(a, b, events[..|events| - 1], first, second, turn);
      var e := events[|events| - 1];
      ApplyStatus(TurnFold(a, events[..|events| - 1], first, turn), e, first, turn);
      ApplyStatus(TurnFold(b, events[..|events| - 1], second, turn), e, second, turn);
    }
  }

  lemma ApplyStatus(ts: TurnState, e: Event, aliases: Aliases, turn: string)
    requires ts.Valid()
    ensures Apply(ts, e, aliases, turn).status
      == if e.kind.Terminal() then if e.data.status != "" then e.data.status else TerminalName(e.kind) else ts.status
  {
  }

  /** A merged message whose saved id is indexed is known when its saved item comes by. */
  lemma IndexedIsKnown(ts: TurnState, i: nat, h: Event)
    requires ts.Valid() && i < |ts.states| && SavedMessage(h) && UiTypeOf(h).Some? && Says(ts.states[i], h)
    requires CodexHistory in ts.states[i].sourceIds && ts.states[i].sourceIds[CodexHistory] == ItemId(h)
    requires SourceId(CodexHistory, ItemId(h)) in ts.bySource && ts.bySource[SourceId(CodexHistory, ItemId(h))] == i
    ensures Known(ts, h)
  {
  }

  lemma MergedSays(s: ItemState, saved: seq<Event>, h: Event)
    requires Says(s, h)
    ensures Says(Merged(s, saved), h)
  {
  }

  lemma MergedId(s: ItemState, saved: seq<Event>, id: string)
    requires SavedId(saved, s) == Some(id)
    ensures CodexHistory in Merged(s, saved).sourceIds && Merged(s, saved).sourceIds[CodexHistory] == id
  {
  }

  lemma AliasedTarget(ts: TurnState, second: Aliases, i: nat, id: string)
    requires ts.Valid() && AliasIndexed(ts, second) && i < |ts.states|
    requires ts.states[i].target in second && second[ts.states[i].target] == map[CodexHistory := id]
    ensures SourceId(CodexHistory, id) in ts.bySource && ts.bySource[SourceId(CodexHistory, id)] == i
  {
  }

  lemma MergedTarget(s: ItemState, saved: seq<Event>)
    ensures Merged(s, saved).target == s.target
  {
  }

  /** A message and the saved item that repeats it. */
  lemma SavedIsKnownAt(ts: TurnState, s: ItemState, saved: seq<Event>, second: Aliases, h: Event, i: nat)
    requires ts.Valid() && i < |ts.states| && ts.states[i] == Merged(s, saved) && AliasIndexed(ts, second)
    requires SavedId(saved, s) == Some(ItemId(h)) && Says(s, h)
    requires s.target in second && second[s.target] == map[CodexHistory := ItemId(h)]
    requires SavedMessage(h) && UiTypeOf(h).Some?
    ensures Known(ts, h)
  {
    MergedSays(s, saved, h);
    MergedTarget(s, saved);
    MergedId(s, saved, ItemId(h));
    AliasedTarget(ts, second, i, ItemId(h));
    hide Merged, SavedId, Says, SavedMessage, Known, AliasIndexed, UiTypeOf, ItemId;
    IndexedIsKnown(ts, i, h);
  }

  lemma FitsAt(second: Aliases, states: seq<ItemState>, saved: seq<Event>, live: seq<Event>, i: nat)
    requires Fits(second, states, saved, live) && i < |states|
    ensures states[i].target in second && SavedId(saved, states[i]).Some?
    ensures second[states[i].target] == map[CodexHistory := SavedId(saved, states[i]).value]
  {
  }

  lemma HeardBy(states: seq<ItemState>, saved: seq<Event>, h: Event) returns (i: nat)
    requires Repeats(saved, states) && h in saved
    ensures i < |states| && Says(states[i], h) && SavedId(saved, states[i]) == Some(ItemId(h))
  {
    assert Heard(states, h);
    hide Repeated, SavedId, ItemId, UiTypeOf, SavedApart, Heard;
    var s := Speaker(states, h);
    i :| 0 <= i < |states| && states[i] == s;
    SavedIdIs(states, saved, h, i);
  }

  lemma Speaker(states: seq<ItemState>, h: Event) returns (s: ItemState)
    requires Heard(states, h)
    ensures s in states && Says(s, h)
  {
    s :| s in states && Says(s, h);
  }

  /** The saved items of a fitting turn are known after the live events. */
  lemma SavedAreKnown(ts: TurnState, states: seq<ItemState>, saved: seq<Event>, live: seq<Event>, second: Aliases, h: Event)
    requires ts.Valid() && ts.states == MergedAll(states, saved) && AliasIndexed(ts, second)
    requires Fits(second, states, saved, live) && Repeats(saved, states)
    requires h in saved && SavedMessage(h) && UiTypeOf(h).Some?
    ensures Known(ts, h)
  {
    hide Known, SavedMessage, UiTypeOf, Says, ItemId, AliasIndexed, SavedId, Repeats, Fits, Merged;
    var i := HeardBy(states, saved, h);
    FitsAt(second, states, saved, live, i);
    SavedIsKnownAt(ts, states[i], saved, second, h, i);
  }

  lemma AllSettled(
      ts: TurnState, states: seq<ItemState>, saved: seq<Event>, history: seq<Event>, live: seq<Event>,
      records: seq<Event>, second: Aliases)
    requires ts.Valid() && ts.states == MergedAll(states, saved) && AliasIndexed(ts, second)
    requires Fits(second, states, saved, live) && Repeats(saved, states)
    requires forall h | h in history && UiTypeOf(h).Some? :: h in saved && SavedMessage(h)
    requires forall a | a in records :: UiTypeOf(a).None?
    ensures forall h | h in history + records && UiTypeOf(h).Some? :: Known(ts, h)
  {
    hide Known, Fits, Repeats, AliasIndexed, MergedAll, SavedMessage, UiTypeOf;
    forall h | h in history + records && UiTypeOf(h).Some? ensures Known(ts, h) {
      SavedAreKnown(ts, states, saved, live, second, h);
    }
  }

  /** Re-materializing the turn with its aliases: the same items and status, and no suggestion. */
  lemma SecondPass(live: seq<Event>, history: seq<Event>, records: seq<Event>, first: Aliases, second: Aliases, turn: string)
    requires Ordered(live) && StreamedThenSaved(live, history, first, turn)
    requires Fits(second, TurnFold(NEW_TURN, live, first, turn).states, ItemEvents(history), live)
    requires forall a | a in records :: a.kind == AliasAttached
    ensures TurnFold(NEW_TURN, live + history + records, second, turn)
      == TurnFold(NEW_TURN, live + history, first, turn).(
           bySource := TurnFold(NEW_TURN, live + history + records, second, turn).bySource, suggestions := [])
  {
    hide TurnFold, Fits, Known, AliasIndexed, MergedAll, Repeats, SavedMessage, LiveMessage, DistinctTexts;
    var states := TurnFold(NEW_TURN, live, first, turn).states;
    FirstPass(live, history, first, turn);
    SecondLivePass(live, history, first, second, turn);
    var ts := TurnFold(NEW_TURN, live, second, turn);
    AllSettled(ts, states, ItemEvents(history), history, live, records, second);
    SettledFold(ts, history + records, second, turn);
    assert live + history + records == live + (history + records);
    TurnFoldConcat(NEW_TURN, live, history + records, second, turn);
    StatusIndependent(NEW_TURN, NEW_TURN, live + history, first, second, turn);
    TurnFoldConcat(NEW_TURN, live + history, records, second, turn);
    AliasRecordsKeepStatus(TurnFold(NEW_TURN, live + history, second, turn), records, second, turn);
  }

  lemma AliasRecordChangesNothing(ts: TurnState, a: Event, aliases: Aliases, turn: string)
    requires ts.Valid() && a.kind == AliasAttached
    ensures Apply(ts, a, aliases, turn) == ts
  {
  }

  lemma {:induction false} AliasRecordsKeepStatus(ts: TurnState, records: seq<Event>, aliases: Aliases, turn: string)
    requires ts.Valid() && forall a | a in records :: a.kind == AliasAttached
    ensures TurnFold(ts, records, aliases, turn) == ts
  {
    hide Apply;
    if records != [] {
      AliasRecordsKeepStatus(ts, records[..|records| - 1], aliases, turn);
      AliasRecordChangesNothing(ts, records[|records| - 1], aliases, turn);
    }
  }
}
