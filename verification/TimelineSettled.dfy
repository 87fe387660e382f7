/** The whole journal: once every suggested alias is attached, a streamed-then-saved turn is settled. */
module TimelineSettled {
  import opened Records
  import opened Timeline
  import opened TimelineTheorems
  import opened TimelineLive
  import opened TimelineMerge
  import opened TimelineConverge
  import opened TimelineTools
  import opened TimelineAttached
  import opened JournalWriter
  import opened HistoryImport

  /**
   * A turn of a journal that was streamed live and then repeated by history, its messages having no alias yet.
   * Both parts may hold any tool events under keys of their own.
   */
  ghost predicate StreamedTurn(events: seq<Event>, turn: string, live: seq<Event>, history: seq<Event>) {
    && TurnEvents(events, turn) == live + history
    && StreamedThenSaved(Spoken(live), Spoken(history), AliasesByTarget(events), turn)
    && Separate(live + history, AliasesByTarget(events))
  }

  /** The turn's messages before any history. */
  ghost function LiveStates(events: seq<Event>, turn: string, live: seq<Event>): seq<ItemState> {
    TurnFold(NEW_TURN, Spoken(live), AliasesByTarget(events), turn).states
  }

  // ----- the first materialization -----

  /** The turn's messages are the merged live ones, and the suggestions for them name their saved ids. */
  lemma FirstProjection(events: seq<Event>, turn: string, live: seq<Event>, history: seq<Event>)
    requires Ordered(events) && StreamedTurn(events, turn, live, history)
    ensures var states, ts := LiveStates(events, turn, live), TurnStateOf(events, turn);
      && Messages(ts.states) == MergedAll(states, ItemEvents(Spoken(history)))
      && (forall link :: link in Links(states, ItemEvents(Spoken(history)), turn)
            <==> link in ts.suggestions && link.target in MessageIds(TurnEvents(events, turn)))
      && ts.status == TurnFold(NEW_TURN, Spoken(live) + Spoken(history), AliasesByTarget(events), turn).status
  {
    var aliases, mine := AliasesByTarget(events), live + history;
    TurnEventsOrdered(events, turn);
    hide TurnFold, StreamedThenSaved, Separate, SideOf, Messages, MergedAll, Keeps, Ordered, Links, ItemEvents, IndexProjects;
    SideKeeps(mine, aliases);
    ProjectFold(mine, aliases, turn, SideOf(mine, aliases));
    SpokenConcat(live, history);
    FirstPass(Spoken(live), Spoken(history), aliases, turn);
  }

  lemma ItemsOfTurn(events: seq<Event>, thread: string, turn: string)
    requires Ordered(events)
    ensures TurnOf(events, thread, turn).items == ShownAll(TurnStateOf(events, turn).states, thread, turn)
  {
    TurnEventsOrdered(events, turn);
    ItemsInCreationOrder(TurnEvents(events, turn), AliasesByTarget(events), thread, turn);
  }

  // ----- what is attached -----

  /** Alias records of the timeline's suggestions, after which each suggestion of this turn has a record. */
  ghost predicate AttachesTurn(events: seq<Event>, added: seq<Event>, turn: string) {
    && (forall a | a in added :: IsAlias(a) && a.data.alias.value in SuggestionsOf(events, SortedTurns(events)))
    && (forall link | link in TurnStateOf(events, turn).suggestions :: Recorded(link, events + added))
  }

  lemma TurnMember(events: seq<Event>, turn: string, live: seq<Event>, history: seq<Event>, e: Event)
    requires TurnEvents(events, turn) == live + history && e in Spoken(live)
    ensures e in TurnEvents(events, turn) && e in events && e.InTurn(turn) && !IsTool(e)
  {
    TurnEventsMembers(events, turn);
  }

  /** A suggestion for one of the turn's live messages is one of its own links. */
  lemma OwnLink(events: seq<Event>, turn: string, live: seq<Event>, history: seq<Event>, e: Event, link: AliasLink)
    requires Ordered(events) && StreamedTurn(events, turn, live, history) && e in Spoken(live)
    requires link in SuggestionsOf(events, SortedTurns(events)) && link.target == e.eventId
    ensures link in Links(LiveStates(events, turn, live), ItemEvents(Spoken(history)), turn)
  {
    hide SuggestionsOf, SortedTurns, TurnStateOf, Links, LiveStates, StreamedThenSaved, Separate, Spoken, UiTypeOf;
    TurnMember(events, turn, live, history, e);
    SuggestionsOfTurn(events, SortedTurns(events), turn, e, link);
    FirstProjection(events, turn, live, history);
  }

  /** The turn's own links were not recorded before. */
  lemma NotYetRecorded(events: seq<Event>, turn: string, live: seq<Event>, history: seq<Event>, link: AliasLink)
    requires Ordered(events) && StreamedTurn(events, turn, live, history) && forall e | e in events :: e.eventId != ""
    requires link in Links(LiveStates(events, turn, live), ItemEvents(Spoken(history)), turn)
    ensures !Recorded(link, events)
  {
    var first, states, saved := AliasesByTarget(events), LiveStates(events, turn, live), ItemEvents(Spoken(history));
    LiveSpoken(events, turn, live, history);
    hide LiveMessage, SavedMessage, Recorded, TurnFold, AliasesByTarget, Separate, DistinctTexts, Repeats, SaidAt, UiTypeOf, Spoken,
      ItemEvents, Links;
    LiveUnaliased(Spoken(live), first, turn);
    SavedNamed(Spoken(history));
    LinksFrom(states, saved, turn);
    var h :| h in saved && LinkOf(link, states, h, turn);
    LinkTargetsItem(states, saved, turn, link);
    var i: nat :| i < |states| && states[i].target == link.target;
    if Recorded(link, events) {
      RecordedIsAliased(events, link);
    }
  }

  /** The live events that are not a tool's are in order and named. */
  lemma LiveSpoken(events: seq<Event>, turn: string, live: seq<Event>, history: seq<Event>)
    requires Ordered(events) && TurnEvents(events, turn) == live + history && forall e | e in events :: e.eventId != ""
    ensures Ordered(Spoken(live)) && forall e | e in Spoken(live) :: e.eventId != ""
  {
    TurnEventsOrdered(events, turn);
    assert forall i | 0 <= i < |live| :: (live + history)[i] == live[i];
    SpokenOrdered(live);
    forall e | e in Spoken(live) ensures e.eventId != "" {
      TurnMember(events, turn, live, history, e);
    }
  }

  lemma AttachedOwnLinks(events: seq<Event>, added: seq<Event>, turn: string, live: seq<Event>, history: seq<Event>)
    requires Ordered(events) && StreamedTurn(events, turn, live, history) && forall e | e in events :: e.eventId != ""
    requires AttachesTurn(events, added, turn)
    ensures OwnLinks(LinksIn(added), Links(LiveStates(events, turn, live), ItemEvents(Spoken(history)), turn), Spoken(live))
  {
    hide StreamedThenSaved, Separate, SuggestionsOf, SortedTurns, TurnStateOf, Links, LiveStates, Spoken, ItemEvents, AliasesByTarget,
      StreamedTurn, TurnEvents, MessageIds, MergedAll, Messages;
    var own := Links(LiveStates(events, turn, live), ItemEvents(Spoken(history)), turn);
    FirstProjection(events, turn, live, history);
    forall link | link in own ensures link in LinksIn(added) {
      NotYetRecorded(events, turn, live, history, link);
      assert Recorded(link, events + added);
      var a :| a in events + added && IsAlias(a) && a.data.alias == Some(link);
      assert a in events ==> Recorded(link, events);
    }
    forall e, link | e in Spoken(live) && link in LinksIn(added) && link.target == e.eventId ensures link in own {
      OwnLink(events, turn, live, history, e, link);
    }
  }

  // ----- keys stay apart -----

  predicate SameSide(d: Event, e: Event) {
    (IsMessage(d) <==> IsMessage(e)) && (IsTool(d) <==> IsTool(e))
  }

  lemma KeyCases(e: Event, aliases: Aliases, key: SourceId)
    ensures key in EventKeys(e, aliases)
      <==> (ItemId(e) != "" && key == SourceId(e.source, ItemId(e)))
           || (e.eventId in aliases && key.source in aliases[e.eventId] && aliases[e.eventId][key.source] == key.id)
  {
  }

  /** A suggested id is an own id of an event of the same kind. */
  lemma SuggestedKey(events: seq<Event>, turn: string, e: Event, link: AliasLink, key: SourceId) returns (o: Event)
    requires Ordered(events) && e in TurnEvents(events, turn)
    requires link in SuggestionsOf(events, SortedTurns(events)) && link.target == e.eventId
    requires link.source == Some(key.source) && link.sourceId == key.id
    ensures o in TurnEvents(events, turn) && SameSide(o, e) && key in EventKeys(o, AliasesByTarget(events))
  {
    hide TurnFold, SortedTurns, SuggestionsOf, AliasesByTarget, UiTypeOf, TurnEvents, EventKeys, ItemId;
    var mine := TurnEvents(events, turn);
    TurnEventsMembers(events, turn);
    SuggestionsOfTurn(events, SortedTurns(events), turn, e, link);
    FoldOrigins(mine, AliasesByTarget(events), turn);
    assert Suggests(link, mine, turn);
    var d, from :| d in mine && from in mine && UiTypeOf(d).Some? && Gives(link, d, from, turn);
    SameId(events, d, e);
    o := from;
    KeyCases(o, AliasesByTarget(events), key);
  }

  /** After the records, a key of an event was a key of an event of its kind before. */
  lemma KeyOrigin(
      events: seq<Event>, added: seq<Event>, turn: string, e: Event, key: SourceId) returns (o: Event)
    requires Ordered(events) && AttachesTurn(events, added, turn) && e in TurnEvents(events, turn)
    requires key in EventKeys(e, AttachAll(AliasesByTarget(events), LinksIn(added)))
    ensures o in TurnEvents(events, turn) && SameSide(o, e) && key in EventKeys(o, AliasesByTarget(events))
  {
    hide TurnStateOf, AttachAll, SortedTurns, SuggestionsOf, AliasesByTarget, UiTypeOf, TurnEvents, EventKeys, ItemId, Recorded, Ordered;
    var first, links := AliasesByTarget(events), LinksIn(added);
    var second := AttachAll(first, links);
    o := e;
    KeyCases(e, first, key);
    KeyCases(e, second, key);
    if key !in EventKeys(e, first) {
      AttachedIds(first, links, e.eventId, key.source);
      var link :| link in links && link.target == e.eventId && link.source == Some(key.source) && link.sourceId == key.id;
      o := SuggestedKey(events, turn, e, link, key);
    }
  }

  ghost predicate Shares(events: seq<Event>, aliases: Aliases, key: SourceId) {
    exists m, t :: m in events && t in events && IsMessage(m) && IsTool(t)
                   && key in EventKeys(m, aliases) && key in EventKeys(t, aliases)
  }

  lemma SeparateIff(events: seq<Event>, aliases: Aliases)
    ensures Separate(events, aliases) <==> forall key :: !Shares(events, aliases, key)
  {
    hide EventKeys, IsMessage, IsTool;
    if !Separate(events, aliases) {
      var m, t :| m in events && t in events && IsMessage(m) && IsTool(t) && !(EventKeys(m, aliases) !! EventKeys(t, aliases));
      var key :| key in EventKeys(m, aliases) && key in EventKeys(t, aliases);
      assert Shares(events, aliases, key);
    }
  }

  /** So tools and messages that share no key share none after the records. */
  lemma SeparateAfter(events: seq<Event>, added: seq<Event>, turn: string)
    requires Ordered(events) && AttachesTurn(events, added, turn)
    requires Separate(TurnEvents(events, turn), AliasesByTarget(events))
    ensures Separate(TurnEvents(events, turn), AttachAll(AliasesByTarget(events), LinksIn(added)))
  {
    hide EventKeys, AttachAll, AliasesByTarget, TurnEvents, Recorded, TurnStateOf, Ordered, IsMessage, IsTool, Separate;
    var mine, first, second := TurnEvents(events, turn), AliasesByTarget(events), AttachAll(AliasesByTarget(events), LinksIn(added));
    SeparateIff(mine, first);
    SeparateIff(mine, second);
    forall key ensures Shares(mine, second, key) ==> Shares(mine, first, key) {
      if m, t :| m in mine && t in mine && IsMessage(m) && IsTool(t) && key in EventKeys(m, second) && key in EventKeys(t, second) {
        var n := KeyOrigin(events, added, turn, m, key);
        var u := KeyOrigin(events, added, turn, t, key);
        assert IsMessage(n) && IsTool(u);
      }
    }
  }

  // ----- the second materialization -----

  lemma LinksAfter(events: seq<Event>, added: seq<Event>, turn: string, live: seq<Event>, history: seq<Event>)
    requires Ordered(events) && StreamedTurn(events, turn, live, history) && forall e | e in events :: e.eventId != ""
    requires AttachesTurn(events, added, turn)
    ensures Ordered(Spoken(live))
    ensures Fits(AliasesByTarget(events + added), LiveStates(events, turn, live), ItemEvents(Spoken(history)), Spoken(live))
  {
    hide StreamedThenSaved, Separate, SuggestionsOf, SortedTurns, TurnStateOf, Links, TurnFold, Spoken, ItemEvents, AliasesByTarget,
      TurnEvents, Recorded, Fits, OwnLinks, AttachAll, Ordered;
    AttachedOwnLinks(events, added, turn, live, history);
    LiveSpoken(events, turn, live, history);
    AliasesAfter(events, added);
    LinksFit(AliasesByTarget(events), LinksIn(added), Spoken(live), Spoken(history), turn);
  }

  /** The turn's events fold to the same state with its alias records behind them. */
  lemma RecordsBehind(events: seq<Event>, added: seq<Event>, turn: string)
    requires forall a | a in added :: IsAlias(a)
    ensures TurnStateOf(events + added, turn) == TurnFold(NEW_TURN, TurnEvents(events, turn), AliasesByTarget(events + added), turn)
  {
    hide TurnFold, TurnEvents, AliasesByTarget;
    var second := AliasesByTarget(events + added);
    TurnEventsConcat(events, added, turn);
    TurnEventsMembers(added, turn);
    TurnFoldConcat(NEW_TURN, TurnEvents(events, turn), TurnEvents(added, turn), second, turn);
    AliasRecordsKeepStatus(TurnFold(NEW_TURN, TurnEvents(events, turn), second, turn), TurnEvents(added, turn), second, turn);
  }

  /** Folding the spoken events again gives the merged messages, and nothing is suggested. */
  lemma SpokenAgain(events: seq<Event>, added: seq<Event>, turn: string, live: seq<Event>, history: seq<Event>)
    requires Ordered(events) && StreamedTurn(events, turn, live, history) && forall e | e in events :: e.eventId != ""
    requires AttachesTurn(events, added, turn)
    ensures var us := TurnFold(NEW_TURN, Spoken(live) + Spoken(history), AliasesByTarget(events), turn);
      var again := TurnFold(NEW_TURN, Spoken(live) + Spoken(history), AliasesByTarget(events + added), turn);
      again.states == us.states && again.status == us.status && again.suggestions == []
      && us.states == MergedAll(LiveStates(events, turn, live), ItemEvents(Spoken(history)))
  {
    LinksAfter(events, added, turn, live, history);
    hide TurnFold, StreamedThenSaved, Separate, AttachesTurn, Spoken, ItemEvents, AliasesByTarget, Fits, Ordered, MergedAll;
    var first, second := AliasesByTarget(events), AliasesByTarget(events + added);
    FirstPass(Spoken(live), Spoken(history), first, turn);
    SecondPass(Spoken(live), Spoken(history), [], first, second, turn);
    assert Spoken(live) + Spoken(history) + [] == Spoken(live) + Spoken(history);
  }

  /** Two states of a turn show the same messages, and the second suggests nothing for any of them. */
  ghost predicate SettledFrom(before: TurnState, after: TurnState, mine: seq<Event>) {
    && Messages(after.states) == Messages(before.states) && after.status == before.status
    && forall link | link in after.suggestions :: link.target !in MessageIds(mine)
  }

  lemma SecondProjection(events: seq<Event>, added: seq<Event>, turn: string, live: seq<Event>, history: seq<Event>)
    requires Ordered(events) && StreamedTurn(events, turn, live, history) && forall e | e in events :: e.eventId != ""
    requires AttachesTurn(events, added, turn)
    ensures SettledFrom(TurnStateOf(events, turn), TurnStateOf(events + added, turn), TurnEvents(events, turn))
  {
    hide TurnFold, StreamedThenSaved, Separate, Messages, MergedAll, Keeps, Ordered, ItemEvents, AliasesByTarget, TurnEvents, Spoken,
      SuggestionsOf, SortedTurns, Recorded, MessageIds, IndexProjects, TargetsKept, AttachAll;
    var mine, second := TurnEvents(events, turn), AliasesByTarget(events + added);
    FirstProjection(events, turn, live, history);
    RecordsBehind(events, added, turn);
    SpokenAgain(events, added, turn, live, history);
    TurnEventsOrdered(events, turn);
    AliasesAfter(events, added);
    SeparateAfter(events, added, turn);
    SideKeeps(mine, second);
    ProjectFold(mine, second, turn, SideOf(mine, second));
    SpokenConcat(live, history);
  }

  // ----- the finished turn -----

  /** The finished turn shows the same messages and status, and none of its messages has an alias left to suggest. */
  ghost predicate MessagesSettled(events: seq<Event>, after: seq<Event>, thread: string, turn: string) {
    && MessageItems(TurnOf(after, thread, turn).items) == MessageItems(TurnOf(events, thread, turn).items)
    && TurnOf(after, thread, turn).status == TurnOf(events, thread, turn).status
    && forall link | link in TurnStateOf(after, turn).suggestions :: link.target !in MessageIds(TurnEvents(events, turn))
  }

  lemma ItemsBehind(events: seq<Event>, added: seq<Event>, thread: string, turn: string)
    requires Ordered(events) && forall a | a in added :: IsAlias(a)
    ensures TurnOf(events + added, thread, turn).items == ShownAll(TurnStateOf(events + added, turn).states, thread, turn)
  {
    hide TurnFold, TurnEvents, AliasesByTarget, Items;
    RecordsBehind(events, added, turn);
    TurnEventsOrdered(events, turn);
    ItemsInCreationOrder(TurnEvents(events, turn), AliasesByTarget(events + added), thread, turn);
  }

  /**
   * Attach suggestions of the timeline so that each of this turn's has a record, and materialize again:
   * the turn's messages and status are the same, and no message is suggested again.
   */
  lemma AttachedMessagesSettle(
      events: seq<Event>, added: seq<Event>, thread: string, turn: string, live: seq<Event>, history: seq<Event>)
    requires Ordered(events) && StreamedTurn(events, turn, live, history) && forall e | e in events :: e.eventId != ""
    requires AttachesTurn(events, added, turn)
    ensures MessagesSettled(events, events + added, thread, turn)
  {
    SecondProjection(events, added, turn, live, history);
    ItemsOfTurn(events, thread, turn);
    ItemsBehind(events, added, thread, turn);
    ShownMessages(TurnStateOf(events, turn).states, thread, turn);
    ShownMessages(TurnStateOf(events + added, turn).states, thread, turn);
  }

  /** Without tools that is the whole turn. */
  lemma ToollessTurnSettles(
      events: seq<Event>, added: seq<Event>, thread: string, turn: string, live: seq<Event>, history: seq<Event>)
    requires Ordered(events) && StreamedTurn(events, turn, live, history) && forall e | e in events :: e.eventId != ""
    requires AttachesTurn(events, added, turn) && forall e | e in live + history :: !IsTool(e)
    ensures TurnOf(events + added, thread, turn) == TurnOf(events, thread, turn)
    ensures TurnStateOf(events + added, turn).suggestions == []
  {
    hide TurnFold, StreamedThenSaved, Separate, AliasesByTarget, TurnEvents, Ordered, UiTypeOf, Messages, MessageIds, Recorded,
      SuggestionsOf, SortedTurns;
    var mine := TurnEvents(events, turn);
    SecondProjection(events, added, turn, live, history);
    RecordsBehind(events, added, turn);
    var before, after := TurnStateOf(events, turn), TurnStateOf(events + added, turn);
    AllMessages(mine, AliasesByTarget(events), turn);
    AllMessages(mine, AliasesByTarget(events + added), turn);
    ItemsOfTurn(events, thread, turn);
    ItemsBehind(events, added, thread, turn);
    NothingIn(after.suggestions);
  }

  lemma NothingIn<T>(xs: seq<T>)
    ensures xs == [] <==> forall x :: x !in xs
  {
    assert xs == [] || xs[0] in xs;
  }

  lemma AllMessages(mine: seq<Event>, aliases: Aliases, turn: string)
    requires forall e | e in mine :: !IsTool(e)
    ensures var ts := TurnFold(NEW_TURN, mine, aliases, turn);
      Messages(ts.states) == ts.states && forall link | link in ts.suggestions :: link.target in MessageIds(mine)
  {
    hide TurnFold;
    var ts := TurnFold(NEW_TURN, mine, aliases, turn);
    FoldOrigins(mine, aliases, turn);
    forall s | s in ts.states ensures s.uiType.IsMessage() {
      assert CreatedAs(s, mine);
    }
    MessagesAll(ts.states);
    forall link | link in ts.suggestions ensures link.target in MessageIds(mine) {
      assert Suggests(link, mine, turn);
    }
  }

  lemma NonemptyTurn(events: seq<Event>, turn: string, link: AliasLink)
    requires link in TurnStateOf(events, turn).suggestions
    ensures exists e :: e in events && e.InTurn(turn)
  {
    TurnEventsMembers(events, turn);
    var mine := TurnEvents(events, turn);
    if mine != [] {
      assert mine[0] in mine;
    }
  }

  /** What `attach_aliases` appends for all suggestions of the timeline. */
  lemma AttachesEveryTurn(p: Progress, thread: string, turn: string, env: Environment, now: int)
    requires HonestAliases(p.log.events)
    ensures var events, links := p.log.events, SuggestionsOf(p.log.events, SortedTurns(p.log.events));
      Sourced(links) && var after := AppendAll(p, thread, AliasRequests(links), env, now).log.events;
        events <= after && AttachesTurn(events, after[|events|..], turn)
  {
    hide SuggestionsOf, SortedTurns, TurnStateOf, AppendAll, AliasRequests, Recorded, HonestAliases;
    var events, order := p.log.events, SortedTurns(p.log.events);
    var links := SuggestionsOf(events, order);
    SuggestionsSourced(events, order);
    AttachRecordsAll(p, thread, links, env, now);
    var after := AppendAll(p, thread, AliasRequests(links), env, now).log.events;
    assert after == events + after[|events|..];
    forall link | link in TurnStateOf(events, turn).suggestions ensures Recorded(link, after) {
      NonemptyTurn(events, turn, link);
      TurnInOrder(events, turn);
      SuggestionsFrom(events, order);
    }
  }

  /**
   * Materialize, attach what is suggested for the whole timeline, materialize again: a turn that was streamed and then
   * saved shows the same messages and status, no message is suggested again, and without tools nothing at all changes.
   */
  lemma AttachedTurnSettles(
      p: Progress, thread: string, turn: string, live: seq<Event>, history: seq<Event>, env: Environment, now: int)
    requires Ordered(p.log.events) && StreamedTurn(p.log.events, turn, live, history)
    requires HonestAliases(p.log.events) && forall e | e in p.log.events :: e.eventId != ""
    ensures var events, links := p.log.events, SuggestionsOf(p.log.events, SortedTurns(p.log.events));
      Sourced(links) && var after := AppendAll(p, thread, AliasRequests(links), env, now).log.events;
        && events <= after && HonestAliases(after)
        && MessagesSettled(events, after, thread, turn)
        && ((forall e | e in live + history :: !IsTool(e)) ==>
              TurnOf(after, thread, turn) == TurnOf(events, thread, turn) && TurnStateOf(after, turn).suggestions == [])
  {
    hide SuggestionsOf, SortedTurns, TurnStateOf, AppendAll, AliasRequests, HonestAliases, StreamedTurn, AttachesTurn,
      MessagesSettled, TurnOf, Ordered;
    var events, links := p.log.events, SuggestionsOf(p.log.events, SortedTurns(p.log.events));
    AttachesEveryTurn(p, thread, turn, env, now);
    AttachRecordsAll(p, thread, links, env, now);
    var after := AppendAll(p, thread, AliasRequests(links), env, now).log.events;
    var added := after[|events|..];
    assert after == events + added;
    AttachedMessagesSettle(events, added, thread, turn, live, history);
    if forall e | e in live + history :: !IsTool(e) {
      ToollessTurnSettles(events, added, thread, turn, live, history);
    }
  }

  // ----- one item per message -----

  /** The item shows the message under its live id and under the id of the saved item that repeats it. */
  ghost predicate ShowsBoth(item: Item, id: string, history: seq<Event>) {
    && item.sourceIds.Keys == {CodexStream, CodexHistory} && item.sourceIds[CodexStream] == id && !item.unresolved
    && exists h :: h in history && UiTypeOf(h) == Some(item.uiType) && TextOf(h) == item.text
                   && ItemId(h) == item.sourceIds[CodexHistory]
  }

  lemma SavedBy(s: ItemState, saved: seq<Event>) returns (h: Event)
    requires Repeated(s, saved)
    ensures h in saved && Says(s, h) && SavedId(saved, s) == Some(ItemId(h))
  {
    var g :| g in saved && Says(s, g);
    hide SavedId, UiTypeOf, TextOf, ItemId;
    h :| h in saved && Says(s, h) && ItemId(h) == SavedId(saved, s).value;
  }

  lemma MergedShowsBoth(s: ItemState, id: string, history: seq<Event>, thread: string, turn: string)
    requires s.sourceIds.Keys == {CodexStream} && s.sourceIds[CodexStream] == id && !s.unresolved && s.uiType.IsMessage()
    requires Repeated(s, ItemEvents(history))
    ensures ShowsBoth(Shown(Merged(s, ItemEvents(history)), thread, turn), id, history)
  {
    hide SavedId, ItemEvents, UiTypeOf, TextOf, ItemId;
    var h := SavedBy(s, ItemEvents(history));
    var merged := Merged(s, ItemEvents(history));
    assert merged == s.(sourceIds := s.sourceIds[CodexHistory := ItemId(h)]);
    assert h in history;
    assert Shown(merged, thread, turn).text == TextOf(h);
  }

  lemma LiveMessageItem(live: seq<Event>, aliases: Aliases, turn: string, i: nat)
    requires forall e | e in live :: LiveMessage(e, aliases)
    requires i < |FirstIds(live)|
    ensures var states := TurnFold(NEW_TURN, live, aliases, turn).states;
      && |states| == |FirstIds(live)| && !states[i].unresolved
      && states[i].sourceIds.Keys == {CodexStream} && states[i].sourceIds[CodexStream] == FirstIds(live)[i]
  {
    LiveTurnShape(live, aliases, turn);
    hide TurnFold, TextFold, PayloadFold;
    var id := FirstIds(live)[i];
    OwnFacts(live, id);
    assert IsOwnItem(TurnFold(NEW_TURN, live, aliases, turn).states[i], Own(live, id), id, aliases);
    assert Own(live, id)[0] in Own(live, id);
  }

  /** The messages shown are one item per live message, in the stream's order, under both its ids and settled. */
  lemma OneItemPerMessage(events: seq<Event>, thread: string, turn: string, live: seq<Event>, history: seq<Event>)
    requires Ordered(events) && StreamedTurn(events, turn, live, history)
    ensures var ids, items := FirstIds(Spoken(live)), MessageItems(TurnOf(events, thread, turn).items);
      |items| == |ids| && forall i | 0 <= i < |items| :: ShowsBoth(items[i], ids[i], history)
  {
    var aliases, ids, spoken := AliasesByTarget(events), FirstIds(Spoken(live)), Spoken(history);
    FirstProjection(events, turn, live, history);
    ItemsOfTurn(events, thread, turn);
    ShownMessages(TurnStateOf(events, turn).states, thread, turn);
    LiveTurnShape(Spoken(live), aliases, turn);
    var states := LiveStates(events, turn, live);
    hide TurnFold, TurnEvents, Items, ItemEvents, SavedId, Own, IsOwnItem, TextOf, UiTypeOf, Spoken, Messages, MessageItems,
      ItemId, LiveMessage, SavedMessage, Shown, FirstIds, SavedApart;
    assert |states| == |ids|;
    forall i | 0 <= i < |states| ensures ShowsBoth(Shown(Merged(states[i], ItemEvents(spoken)), thread, turn), ids[i], history) {
      LiveMessageItem(Spoken(live), aliases, turn, i);
      assert states[i] in states;
      MergedShowsBoth(states[i], ids[i], spoken, thread, turn);
      assert forall h | h in spoken :: h in history;
    }
  }

  // ----- such turns exist -----

  const LIVE_HELLO := Event(1, "e1", LiveKey("live"), UserMessageCompleted, "codex.notification", "item/completed", CodexStream,
                            "thread", Some("turn"), Some("m1"), "now", NO_DATA.(text := "hello"))

  const LIVE_RUN := LIVE_HELLO.(
    sequence := 2, eventId := "e2", dedupKey := LiveKey("run"), kind := CommandCompleted, itemId := Some("x1"),
    data := NO_DATA.(item := Some(Payload("x1", Some(CommandExecution), map["command" := "ls"]))))

  const SAVED_HELLO := LIVE_HELLO.(
    sequence := 3, eventId := "e3", dedupKey := LiveKey("saved"), source := CodexHistory, itemId := Some("h1"))

  const HELLO_LINK := AliasLink("turn", "e1", Some(CodexHistory), "h1")

  const HELLO_ITEM := ItemState("e1", map[CodexStream := "m1"], UserMessage, 1, "hello", None, false, [], false)

  const HELLO_EVENTS := [LIVE_HELLO, LIVE_RUN, SAVED_HELLO]

  /** A message and a command streamed live, and the message saved under another id: such a turn, with an alias to attach. */
  lemma HelloIsStreamedTurn()
    ensures Ordered(HELLO_EVENTS) && HonestAliases(HELLO_EVENTS)
    ensures StreamedTurn(HELLO_EVENTS, "turn", [LIVE_HELLO, LIVE_RUN], [SAVED_HELLO])
    ensures HELLO_LINK in TurnStateOf(HELLO_EVENTS, "turn").suggestions
  {
    hide TurnFold, TurnEvents, AliasesByTarget, ItemEvents, StreamedThenSaved, Links, Spoken, Separate, MessageIds;
    HelloRecords();
    HelloMerges();
    HelloSeparate();
    assert [LIVE_HELLO, LIVE_RUN] + [SAVED_HELLO] == HELLO_EVENTS;
    FirstProjection(HELLO_EVENTS, "turn", [LIVE_HELLO, LIVE_RUN], [SAVED_HELLO]);
    HelloLinks();
    assert HELLO_LINK in [HELLO_LINK];
  }

  lemma HelloRecords()
    ensures TurnEvents(HELLO_EVENTS, "turn") == HELLO_EVENTS && AliasesByTarget(HELLO_EVENTS) == map[]
    ensures Spoken([LIVE_HELLO, LIVE_RUN]) == [LIVE_HELLO] && Spoken([SAVED_HELLO]) == [SAVED_HELLO]
  {
    HelloKinds();
    hide UiTypeOf;
    ThreeTurnEvents(LIVE_HELLO, LIVE_RUN, SAVED_HELLO, "turn");
  }

  lemma HelloKinds()
    ensures !IsTool(LIVE_HELLO) && IsTool(LIVE_RUN) && !IsTool(SAVED_HELLO)
  {
  }

  lemma ThreeTurnEvents(a: Event, b: Event, c: Event, turn: string)
    requires a.InTurn(turn) && b.InTurn(turn) && c.InTurn(turn)
    requires a.kind != AliasAttached && b.kind != AliasAttached && c.kind != AliasAttached
    requires !IsTool(a) && IsTool(b) && !IsTool(c)
    ensures TurnEvents([a, b, c], turn) == [a, b, c] && AliasesByTarget([a, b, c]) == map[]
    ensures Spoken([a, b]) == [a] && Spoken([c]) == [c]
  {
    hide TurnEvents, AliasesByTarget, Spoken, IsTool, Event.InTurn;
    assert [a, b, c] == [a] + [b] + [c] && [a, b] == [a] + [b];
    TurnEventsConcat([a] + [b], [c], turn);
    TurnEventsConcat([a], [b], turn);
    SpokenConcat([a], [b]);
    AliasesConcat([], [a, b, c]);
    assert [] + [a, b, c] == [a, b, c];
    OneTurnEvent(a, turn);
    OneTurnEvent(b, turn);
    OneTurnEvent(c, turn);
    PlusNothing([a]);
  }

  lemma OneTurnEvent(e: Event, turn: string)
    requires e.InTurn(turn)
    ensures TurnEvents([e], turn) == [e] && AliasesByTarget([]) == map[] && Spoken([e]) == if IsTool(e) then [] else [e]
  {
    hide IsTool, Event.InTurn;
    assert [e][..0] == [];
  }

  lemma OneItemEvent(e: Event)
    requires UiTypeOf(e).Some?
    ensures ItemEvents([e]) == [e]
  {
    hide UiTypeOf;
    assert [e][..0] == [];
  }

  lemma HelloState()
    ensures TurnFold(NEW_TURN, [LIVE_HELLO], map[], "turn").states == [HELLO_ITEM]
  {
    assert [LIVE_HELLO][..0] == [];
  }

  lemma HelloSaid()
    ensures LiveMessage(LIVE_HELLO, map[]) && SavedMessage(SAVED_HELLO) && Says(HELLO_ITEM, SAVED_HELLO)
    ensures UiTypeOf(SAVED_HELLO).Some? && DistinctTexts([HELLO_ITEM])
  {
  }

  lemma HelloMerges()
    ensures StreamedThenSaved([LIVE_HELLO], [SAVED_HELLO], map[], "turn")
    ensures ItemEvents([SAVED_HELLO]) == [SAVED_HELLO]
  {
    hide TurnFold, ItemEvents, LiveMessage, SavedMessage, Says, UiTypeOf, DistinctTexts, Apart;
    HelloState();
    HelloSaid();
    OneItemEvent(SAVED_HELLO);
    RepeatsOne(SAVED_HELLO, HELLO_ITEM);
  }

  lemma RepeatsOne(h: Event, s: ItemState)
    requires Says(s, h)
    ensures Repeats([h], [s])
  {
    hide Says, Apart;
    assert s in [s] && h in [h];
    assert Heard([s], h) && Repeated(s, [h]);
  }

  lemma HelloSeparate()
    ensures Separate(HELLO_EVENTS, map[])
  {
    assert EventKeys(LIVE_HELLO, map[]) == {SourceId(CodexStream, "m1")};
    assert EventKeys(LIVE_RUN, map[]) == {SourceId(CodexStream, "x1")};
    assert EventKeys(SAVED_HELLO, map[]) == {SourceId(CodexHistory, "h1")};
    assert "m1"[0] != "x1"[0];
  }

  lemma HelloLinks()
    ensures Links(TurnFold(NEW_TURN, [LIVE_HELLO], map[], "turn").states, ItemEvents([SAVED_HELLO]), "turn") == [HELLO_LINK]
  {
    hide TurnFold, ItemEvents, Says, UiTypeOf;
    HelloState();
    HelloSaid();
    OneItemEvent(SAVED_HELLO);
    OneLink(HELLO_ITEM, SAVED_HELLO, "turn");
  }

  lemma OneLink(s: ItemState, h: Event, turn: string)
    requires Says(s, h)
    ensures Links([s], [h], turn) == [AliasLink(turn, s.target, Some(CodexHistory), ItemId(h))]
  {
    hide Says, ItemId;
    assert Links([s], [h][..0], turn) == [];
  }
}
