/** The aliases of the whole journal: what is suggested, what the records of it attach, and to which items. */
module TimelineAttached {
  import opened Records
  import opened Sorting
  import opened Timeline
  import opened TimelineTheorems
  import opened TimelineLive
  import opened TimelineMerge
  import opened TimelineConverge
  import opened TimelineTools
  import opened JournalWriter
  import opened HistoryImport
  import opened HistoryTheorems

  // ----- alias records -----

  predicate IsAlias(e: Event) {
    e.kind == AliasAttached && e.data.alias.Some?
  }

  ghost predicate Recorded(link: AliasLink, events: seq<Event>) {
    exists a :: a in events && IsAlias(a) && a.data.alias == Some(link)
  }

  /** A record under an alias key is that alias's record. */
  ghost predicate HonestAliases(events: seq<Event>) {
    forall a | a in events && a.dedupKey.AliasKey? ::
      IsAlias(a) && a.data.alias == Some(AliasLink(a.dedupKey.turn, a.dedupKey.target, Some(a.dedupKey.source), a.dedupKey.sourceId))
  }

  ghost predicate Sourced(links: seq<AliasLink>) {
    forall link | link in links :: link.source.Some?
  }

  lemma {:induction false} RequestsOfLinks(links: seq<AliasLink>)
    requires Sourced(links)
    ensures forall v :: v in AliasRequests(links) <==> exists link :: link in links && v == AliasValues(link)
  {
    if links != [] {
      hide AliasValues;
      var n := |links| - 1;
      assert links == links[..n] + [links[n]];
      RequestsOfLinks(links[..n]);
      forall v ensures v in AliasRequests(links) <==> exists link :: link in links && v == AliasValues(link) {
        if link :| link in links && v == AliasValues(link) {
          assert link in links[..n] || link == links[n];
        }
      }
    }
  }

  /** A record `attach_aliases` wrote is an honest alias record of one of its links. */
  lemma RequestedAlias(e: Event, links: seq<AliasLink>, thread: string) returns (link: AliasLink)
    requires Sourced(links) && Requested(e, AliasRequests(links), thread)
    ensures link in links && IsAlias(e) && e.data.alias == Some(link) && e.dedupKey == AliasValues(link).dedupKey
    ensures e.dedupKey == AliasKey(link.turnId, link.target, link.source.value, link.sourceId)
  {
    RequestsOfLinks(links);
    var v :| v in AliasRequests(links) && e == v.Record(thread, e.sequence, e.eventId, e.at);
    link :| link in links && v == AliasValues(link);
  }

  /** Attaching a list of aliases appends alias records of that list only, and afterwards every alias in it is recorded. */
  lemma AttachRecordsAll(p: Progress, thread: string, links: seq<AliasLink>, env: Environment, now: int)
    requires Sourced(links) && HonestAliases(p.log.events)
    ensures var events, after := p.log.events, AppendAll(p, thread, AliasRequests(links), env, now).log.events;
      && events <= after && HonestAliases(after)
      && (forall a | a in after[|events|..] :: IsAlias(a) && a.data.alias.value in links)
      && (forall link | link in links :: Recorded(link, after))
  {
    hide AppendAll, AliasRequests, Requested, IsAlias, HonestAliases;
    AppendAllExtends(p, thread, AliasRequests(links), env, now);
    var events, after := p.log.events, AppendAll(p, thread, AliasRequests(links), env, now).log.events;
    RequestsOfLinks(links);
    assert after == events + after[|events|..];
    forall a | a in after[|events|..] ensures IsAlias(a) && a.data.alias.Some? && a.data.alias.value in links && HonestAliases([a]) {
      var link := RequestedAlias(a, links, thread);
      HonestOne(a, link);
    }
    HonestTogether(events, after[|events|..]);
    forall link | link in links ensures Recorded(link, after) {
      assert AliasValues(link) in AliasRequests(links);
      assert AliasValues(link).dedupKey in Keys(after);
      var a :| a in after && a.dedupKey == AliasValues(link).dedupKey;
      HonestKey(after, a, link);
    }
  }

  lemma HonestOne(a: Event, link: AliasLink)
    requires IsAlias(a) && a.data.alias == Some(link) && link.source.Some?
    requires a.dedupKey == AliasKey(link.turnId, link.target, link.source.value, link.sourceId)
    ensures HonestAliases([a]) && a.data.alias.Some?
  {
  }

  lemma HonestTogether(events: seq<Event>, added: seq<Event>)
    requires HonestAliases(events) && forall a | a in added :: HonestAliases([a])
    ensures HonestAliases(events + added)
  {
    forall a | a in events + added ensures HonestAliases([a]) {
    }
    assert forall a | a in events + added :: a in [a];
  }

  lemma HonestKey(events: seq<Event>, a: Event, link: AliasLink)
    requires HonestAliases(events) && a in events && link.source.Some? && a.dedupKey == AliasValues(link).dedupKey
    ensures Recorded(link, events)
  {
  }

  /** The links that some alias records attach. */
  function LinksIn(added: seq<Event>): (links: seq<AliasLink>)
    requires forall a | a in added :: IsAlias(a)
    ensures forall link :: link in links <==> exists a :: a in added && a.data.alias == Some(link)
  {
    if added == [] then []
    else
      var last := added[|added| - 1];
      assert added == added[..|added| - 1] + [last];
      assert IsAlias(last);
      LinksIn(added[..|added| - 1]) + [last.data.alias.value]
  }

  function AttachAll(aliases: Aliases, links: seq<AliasLink>): Aliases {
    if links == [] then aliases else Attach(AttachAll(aliases, links[..|links| - 1]), links[|links| - 1])
  }

  lemma {:induction false} AliasesAfter(events: seq<Event>, added: seq<Event>)
    requires forall a | a in added :: IsAlias(a)
    ensures AliasesByTarget(events + added) == AttachAll(AliasesByTarget(events), LinksIn(added))
    decreases |added|
  {
    if added == [] {
      assert events + added == events;
    } else {
      hide Attach;
      var n := |added| - 1;
      assert added[n] in added;
      assert (events + added)[..|events + added| - 1] == events + added[..n];
      AliasesAfter(events, added[..n]);
    }
  }

  /** Attached ids are known ones or some link's. */
  lemma {:induction false} AttachedIds(aliases: Aliases, links: seq<AliasLink>, target: string, source: Source)
    requires var after := AttachAll(aliases, links);
      target in after && source in after[target]
    ensures var id := AttachAll(aliases, links)[target][source];
      || (target in aliases && source in aliases[target] && aliases[target][source] == id)
      || exists link :: link in links && link.target == target && link.source == Some(source) && link.sourceId == id
  {
    if links != [] {
      var n := |links| - 1;
      var last := links[n];
      assert last in links;
      var earlier := AttachAll(aliases, links[..n]);
      if target in earlier && source in earlier[target] && AttachAll(aliases, links)[target][source] == earlier[target][source] {
        AttachedIds(aliases, links[..n], target, source);
      }
    }
  }

  /** A recorded link with all its parts leaves its target an alias. */
  lemma {:induction false} RecordedIsAliased(events: seq<Event>, link: AliasLink)
    requires Recorded(link, events) && link.target != "" && link.source.Some? && link.sourceId != ""
    ensures link.target in AliasesByTarget(events)
  {
    var n := |events| - 1;
    assert events == events[..n] + [events[n]];
    if !(IsAlias(events[n]) && events[n].data.alias == Some(link)) {
      assert Recorded(link, events[..n]);
      RecordedIsAliased(events[..n], link);
    }
  }

  ghost predicate Targets(links: seq<AliasLink>, target: string) {
    exists link :: link in links && link.target == target
  }

  /** A target all of whose links give one history id gets that id alone. */
  lemma {:induction false} OneHistoryId(aliases: Aliases, links: seq<AliasLink>, target: string, id: string)
    requires target !in aliases && target != "" && id != ""
    requires forall link | link in links && link.target == target :: link.source == Some(CodexHistory) && link.sourceId == id
    ensures target in AttachAll(aliases, links) <==> Targets(links, target)
    ensures Targets(links, target) ==> AttachAll(aliases, links)[target] == map[CodexHistory := id]
  {
    if links != [] {
      var n := |links| - 1;
      assert links == links[..n] + [links[n]];
      OneHistoryId(aliases, links[..n], target, id);
      assert Targets(links, target) <==> Targets(links[..n], target) || links[n].target == target;
    }
  }

  lemma {:induction false} Untargeted(aliases: Aliases, links: seq<AliasLink>, target: string)
    requires target !in aliases && !Targets(links, target)
    ensures target !in AttachAll(aliases, links)
  {
    if links != [] {
      var n := |links| - 1;
      assert links == links[..n] + [links[n]];
      assert links[n] in links;
      assert !Targets(links[..n], target);
      Untargeted(aliases, links[..n], target);
    }
  }

  // ----- where suggestions come from -----

  /** An item has the type of the event that created it. */
  ghost predicate CreatedAs(s: ItemState, events: seq<Event>) {
    exists d :: d in events && d.eventId == s.target && UiTypeOf(d) == Some(s.uiType)
  }

  predicate Gives(link: AliasLink, d: Event, e: Event, turn: string) {
    UiTypeOf(d) == UiTypeOf(e) && ItemId(e) != "" && link == AliasLink(turn, d.eventId, Some(e.source), ItemId(e))
  }

  /** A suggestion gives an item the own id of an event of the same type. */
  ghost predicate Suggests(link: AliasLink, events: seq<Event>, turn: string) {
    exists d, e :: d in events && e in events && UiTypeOf(d).Some? && Gives(link, d, e, turn)
  }

  lemma NewSuggestion(ts: TurnState, e: Event, aliases: Aliases, turn: string)
    requires ts.Valid()
    ensures forall link | link in Apply(ts, e, aliases, turn).suggestions ::
      link in ts.suggestions
      || (ItemId(e) != "" && exists s :: s in ts.states && UiTypeOf(e) == Some(s.uiType)
                                         && link == AliasLink(turn, s.target, Some(e.source), ItemId(e)))
  {
    if UiTypeOf(e).Some? {
      MatchesHaveType(ts.states, UiTypeOf(e).value, e);
    }
  }

  lemma PlacedType(ts: TurnState, ui: UiType, e: Event, aliases: Aliases, turn: string, i: nat)
    requires ts.Valid() && i < |Placed(ts, ui, e, aliases, turn).0.states|
    ensures var s := Placed(ts, ui, e, aliases, turn).0.states[i];
      if i < |ts.states| then s.target == ts.states[i].target && s.uiType == ts.states[i].uiType
      else s.target == e.eventId && s.uiType == ui
  {
    hide FindOwn, FindCross, InitialIds;
  }

  lemma FilledType(ts: TurnState, at: nat, ui: UiType, e: Event, i: nat)
    requires ts.Valid() && at < |ts.states| && i < |ts.states|
    ensures Filled(ts, at, ui, e).states[i].target == ts.states[i].target && Filled(ts, at, ui, e).states[i].uiType == ts.states[i].uiType
  {
    ContentKeepsPlace(ts.states[at], ui, e);
    hide Content;
  }

  lemma NewItemType(ts: TurnState, e: Event, aliases: Aliases, turn: string, i: nat)
    requires ts.Valid() && i < |Apply(ts, e, aliases, turn).states|
    ensures var s := Apply(ts, e, aliases, turn).states[i];
      if i < |ts.states| then s.target == ts.states[i].target && s.uiType == ts.states[i].uiType
      else s.target == e.eventId && UiTypeOf(e) == Some(s.uiType)
  {
    hide Placed, Filled, UiTypeOf;
    if !e.kind.Terminal() && UiTypeOf(e).Some? {
      var ui := UiTypeOf(e).value;
      PlacedType(ts, ui, e, aliases, turn, i);
      FilledType(Placed(ts, ui, e, aliases, turn).0, Placed(ts, ui, e, aliases, turn).1, ui, e, i);
    }
  }

  lemma CreatedAsMore(s: ItemState, t: ItemState, front: seq<Event>, e: Event)
    requires CreatedAs(s, front) && t.target == s.target && t.uiType == s.uiType
    ensures CreatedAs(t, front + [e])
  {
    var d :| d in front && d.eventId == s.target && UiTypeOf(d) == Some(s.uiType);
    assert d in front + [e];
  }

  lemma SuggestsMore(link: AliasLink, front: seq<Event>, e: Event, turn: string)
    requires Suggests(link, front, turn)
    ensures Suggests(link, front + [e], turn)
  {
    var d, o :| d in front && o in front && UiTypeOf(d).Some? && Gives(link, d, o, turn);
    assert d in front + [e] && o in front + [e];
  }

  lemma SuggestsNew(link: AliasLink, s: ItemState, front: seq<Event>, e: Event, turn: string)
    requires CreatedAs(s, front) && UiTypeOf(e) == Some(s.uiType) && ItemId(e) != ""
    requires link == AliasLink(turn, s.target, Some(e.source), ItemId(e))
    ensures Suggests(link, front + [e], turn)
  {
    var d :| d in front && d.eventId == s.target && UiTypeOf(d) == Some(s.uiType);
    assert d in front + [e] && e in front + [e] && Gives(link, d, e, turn);
  }

  /** Where a turn's items and suggestions come from. */
  lemma {:induction false} FoldOrigins(events: seq<Event>, aliases: Aliases, turn: string)
    ensures var ts := TurnFold(NEW_TURN, events, aliases, turn);
      && (forall s | s in ts.states :: CreatedAs(s, events))
      && (forall link | link in ts.suggestions :: Suggests(link, events, turn))
    decreases |events|
  {
    if events != [] {
      hide Apply, CreatedAs, Suggests, UiTypeOf, ItemId;
      var n := |events| - 1;
      var front, e := events[..n], events[n];
      assert events == front + [e];
      FoldOrigins(front, aliases, turn);
      var ts := TurnFold(NEW_TURN, front, aliases, turn);
      var after := TurnFold(NEW_TURN, events, aliases, turn);
      assert after == Apply(ts, e, aliases, turn);
      forall s | s in after.states ensures CreatedAs(s, events) {
        var i :| 0 <= i < |after.states| && after.states[i] == s;
        NewItemType(ts, e, aliases, turn, i);
        if i < |ts.states| {
          CreatedAsMore(ts.states[i], s, front, e);
        } else {
          CreatedByLast(s, front, e);
        }
      }
      NewSuggestion(ts, e, aliases, turn);
      forall link | link in after.suggestions ensures Suggests(link, events, turn) {
        if link in ts.suggestions {
          SuggestsMore(link, front, e, turn);
        } else {
          var s :| s in ts.states && UiTypeOf(e) == Some(s.uiType) && link == AliasLink(turn, s.target, Some(e.source), ItemId(e));
          SuggestsNew(link, s, front, e, turn);
        }
      }
    }
  }

  lemma CreatedByLast(s: ItemState, front: seq<Event>, e: Event)
    requires s.target == e.eventId && UiTypeOf(e) == Some(s.uiType)
    ensures CreatedAs(s, front + [e])
  {
    assert e in front + [e];
  }

  lemma {:induction false} SuggestionsFrom(events: seq<Event>, order: seq<string>)
    ensures forall link ::
      link in SuggestionsOf(events, order) <==> exists t :: t in order && link in TurnStateOf(events, t).suggestions
  {
    hide TurnStateOf;
    if order != [] {
      var n := |order| - 1;
      assert order == order[..n] + [order[n]];
      SuggestionsFrom(events, order[..n]);
      forall link ensures link in SuggestionsOf(events, order)
        <==> exists t :: t in order && link in TurnStateOf(events, t).suggestions
      {
        if t :| t in order && link in TurnStateOf(events, t).suggestions {
          if t != order[n] {
            assert t in order[..n];
          }
        }
      }
    }
  }

  // ----- the order of turns -----

  lemma TurnInOrder(events: seq<Event>, t: string)
    ensures t in SortedTurns(events) <==> exists e :: e in events && e.InTurn(t)
  {
    TurnOrderMembers(events);
    SortMembers(TurnOrder(events), (a: string, b: string) => RankOf(TurnEvents(events, a)).Before(RankOf(TurnEvents(events, b))));
  }

  // ----- the links of one turn -----

  predicate LinkOf(link: AliasLink, states: seq<ItemState>, h: Event, turn: string) {
    var at := SaidAt(states, h);
    at.Some? && link == AliasLink(turn, states[at.value].target, Some(CodexHistory), ItemId(h))
  }

  lemma {:induction false} LinksFrom(states: seq<ItemState>, saved: seq<Event>, turn: string)
    ensures forall link :: link in Links(states, saved, turn) <==> exists h :: h in saved && LinkOf(link, states, h, turn)
  {
    if saved != [] {
      hide SaidAt, ItemId;
      var n := |saved| - 1;
      assert saved == saved[..n] + [saved[n]];
      LinksFrom(states, saved[..n], turn);
      forall link ensures link in Links(states, saved, turn) <==> exists h :: h in saved && LinkOf(link, states, h, turn) {
        if LinkOf(link, states, saved[n], turn) {
          assert saved[n] in saved;
        }
        if h :| h in saved && LinkOf(link, states, h, turn) {
          assert h in saved[..n] || h == saved[n];
        }
      }
    }
  }

  ghost predicate DistinctTargets(states: seq<ItemState>) {
    forall i, j | 0 <= i < j < |states| :: states[i].target != states[j].target
  }

  /** The links of a turn give each message the id of the saved item that repeats it, and nothing else. */
  lemma LinksNameSavedIds(states: seq<ItemState>, saved: seq<Event>, turn: string, i: nat)
    requires i < |states| && DistinctTargets(states) && DistinctTexts(states) && Repeats(saved, states)
    ensures Targets(Links(states, saved, turn), states[i].target) && SavedId(saved, states[i]).Some?
    ensures forall link | link in Links(states, saved, turn) && link.target == states[i].target ::
      link.source == Some(CodexHistory) && Some(link.sourceId) == SavedId(saved, states[i])
  {
    LinksFrom(states, saved, turn);
    hide SavedId, Links, UiTypeOf, ItemId, SavedApart, Heard;
    forall link | link in Links(states, saved, turn) && link.target == states[i].target
      ensures link.source == Some(CodexHistory) && Some(link.sourceId) == SavedId(saved, states[i])
    {
      var h :| h in saved && LinkOf(link, states, h, turn);
      SavedIdIs(states, saved, h, i);
    }
    assert Repeated(states[i], saved);
    var h :| h in saved && Says(states[i], h);
    SavedIdIs(states, saved, h, i);
    SaidOnce(states, h, i);
    assert LinkOf(AliasLink(turn, states[i].target, Some(CodexHistory), ItemId(h)), states, h, turn);
  }

  lemma SaidOnce(states: seq<ItemState>, h: Event, i: nat)
    requires i < |states| && DistinctTexts(states) && Says(states[i], h)
    ensures SaidAt(states, h) == Some(i)
  {
  }

  // ----- the aliases after the records -----

  lemma TargetsApart(live: seq<Event>, aliases: Aliases, turn: string)
    requires Ordered(live)
    ensures DistinctTargets(TurnFold(NEW_TURN, live, aliases, turn).states)
  {
    FoldInOrder(live, aliases, turn);
    var states := TurnFold(NEW_TURN, live, aliases, turn).states;
    hide TurnFold;
    forall i, j | 0 <= i < j < |states| ensures states[i].target != states[j].target {
      var d :| d in live && d.eventId == states[i].target && d.sequence == states[i].firstSeq;
      var e :| e in live && e.eventId == states[j].target && e.sequence == states[j].firstSeq;
      var a :| 0 <= a < |live| && live[a] == d;
      var b :| 0 <= b < |live| && live[b] == e;
      assert a != b;
    }
  }

  lemma CreatedBy(live: seq<Event>, aliases: Aliases, turn: string, i: nat) returns (e: Event)
    requires Ordered(live) && i < |TurnFold(NEW_TURN, live, aliases, turn).states|
    ensures e in live && e.eventId == TurnFold(NEW_TURN, live, aliases, turn).states[i].target
  {
    FoldInOrder(live, aliases, turn);
    var s := TurnFold(NEW_TURN, live, aliases, turn).states[i];
    e :| e in live && e.eventId == s.target && e.sequence == s.firstSeq;
  }

  /** A suggestion of the whole timeline that points at an event of a turn was made in that turn. */
  lemma SuggestionsOfTurn(events: seq<Event>, order: seq<string>, turn: string, e: Event, link: AliasLink)
    requires Ordered(events) && e in events && e.InTurn(turn)
    requires link in SuggestionsOf(events, order) && link.target == e.eventId
    ensures link in TurnStateOf(events, turn).suggestions && UiTypeOf(e).Some?
  {
    SuggestionsFrom(events, order);
    hide SuggestionsOf, TurnEvents, UiTypeOf, ItemId;
    var t :| t in order && link in TurnStateOf(events, t).suggestions;
    FoldOrigins(TurnEvents(events, t), AliasesByTarget(events), t);
    hide TurnFold;
    assert Suggests(link, TurnEvents(events, t), t);
    var d, o :| d in TurnEvents(events, t) && o in TurnEvents(events, t) && UiTypeOf(d).Some? && Gives(link, d, o, t);
    TurnEventsMembers(events, t);
    SameId(events, d, e);
  }

  lemma SameId(events: seq<Event>, d: Event, e: Event)
    requires Ordered(events) && d in events && e in events && d.eventId == e.eventId
    ensures d == e
  {
    var a :| 0 <= a < |events| && events[a] == d;
    var b :| 0 <= b < |events| && events[b] == e;
  }

  lemma SuggestionsSourced(events: seq<Event>, order: seq<string>)
    ensures Sourced(SuggestionsOf(events, order))
  {
    SuggestionsFrom(events, order);
    hide SuggestionsOf, TurnEvents, UiTypeOf, ItemId, TurnFold;
    forall link | link in SuggestionsOf(events, order) ensures link.source.Some? {
      var t :| t in order && link in TurnStateOf(events, t).suggestions;
      FoldOrigins(TurnEvents(events, t), AliasesByTarget(events), t);
      assert Suggests(link, TurnEvents(events, t), t);
    }
  }

  /** The links that target a turn's live events are that turn's own. */
  ghost predicate OwnLinks(links: seq<AliasLink>, own: seq<AliasLink>, live: seq<Event>) {
    && (forall link | link in own :: link in links)
    && forall e, link | e in live && link in links && link.target == e.eventId :: link in own
  }

  lemma ItemFits(
      first: Aliases, links: seq<AliasLink>, own: seq<AliasLink>, states: seq<ItemState>, saved: seq<Event>, turn: string, i: nat)
    requires i < |states| && DistinctTargets(states) && DistinctTexts(states) && Repeats(saved, states)
    requires own == Links(states, saved, turn) && states[i].target !in first && states[i].target != ""
    requires forall h | h in saved :: ItemId(h) != ""
    requires forall link | link in own :: link in links
    requires forall link | link in links && link.target == states[i].target :: link in own
    ensures var second := AttachAll(first, links);
      && states[i].target in second && SavedId(saved, states[i]).Some?
      && second[states[i].target] == map[CodexHistory := SavedId(saved, states[i]).value]
  {
    LinksNameSavedIds(states, saved, turn, i);
    assert SavedId(saved, states[i]).value != "";
    hide Links, AttachAll, SavedId, DistinctTexts, DistinctTargets, Repeats;
    var link :| link in own && link.target == states[i].target;
    assert Targets(links, states[i].target);
    OneHistoryId(first, links, states[i].target, SavedId(saved, states[i]).value);
  }

  lemma AliasedEventCreates(
      first: Aliases, links: seq<AliasLink>, own: seq<AliasLink>, states: seq<ItemState>, saved: seq<Event>, turn: string, e: Event)
    requires own == Links(states, saved, turn) && e.eventId !in first && e.eventId in AttachAll(first, links)
    requires forall link | link in links && link.target == e.eventId :: link in own
    ensures exists i :: Creates(e, states, i)
  {
    hide Links, AttachAll;
    if !Targets(links, e.eventId) {
      Untargeted(first, links, e.eventId);
    }
    var link :| link in links && link.target == e.eventId;
    LinkTargetsItem(states, saved, turn, link);
    var i: nat :| i < |states| && states[i].target == link.target;
    assert Creates(e, states, i);
  }

  /** Every item was created by a live event, none of which has an alias yet. */
  ghost predicate Unaliased(states: seq<ItemState>, live: seq<Event>, first: Aliases) {
    && (forall e | e in live :: e.eventId !in first && e.eventId != "")
    && forall i | 0 <= i < |states| :: states[i].target !in first && states[i].target != "" && IsLive(states[i].target, live)
  }

  ghost predicate IsLive(target: string, live: seq<Event>) {
    exists e :: e in live && e.eventId == target
  }

  lemma ItemsFit(
      first: Aliases, links: seq<AliasLink>, own: seq<AliasLink>, states: seq<ItemState>, saved: seq<Event>,
      live: seq<Event>, turn: string)
    requires DistinctTargets(states) && DistinctTexts(states) && Repeats(saved, states) && Unaliased(states, live, first)
    requires own == Links(states, saved, turn) && OwnLinks(links, own, live)
    requires forall h | h in saved :: ItemId(h) != ""
    ensures Fits(AttachAll(first, links), states, saved, live)
  {
    hide Links, AttachAll, SavedId, DistinctTexts, DistinctTargets, Repeats, ItemId;
    var second := AttachAll(first, links);
    forall i | 0 <= i < |states|
      ensures states[i].target in second && SavedId(saved, states[i]).Some?
      ensures second[states[i].target] == map[CodexHistory := SavedId(saved, states[i]).value]
    {
      assert IsLive(states[i].target, live);
      ItemFits(first, links, own, states, saved, turn, i);
    }
    forall e | e in live && e.eventId in second ensures exists i :: Creates(e, states, i) {
      AliasedEventCreates(first, links, own, states, saved, turn, e);
    }
  }

  lemma LiveUnaliased(live: seq<Event>, first: Aliases, turn: string)
    requires Ordered(live) && forall e | e in live :: LiveMessage(e, first) && e.eventId != ""
    ensures Unaliased(TurnFold(NEW_TURN, live, first, turn).states, live, first)
  {
    hide LiveEvent, UiTypeOf;
    var states := TurnFold(NEW_TURN, live, first, turn).states;
    forall i | 0 <= i < |states|
      ensures states[i].target !in first && states[i].target != "" && IsLive(states[i].target, live)
    {
      var e := CreatedBy(live, first, turn, i);
      assert LiveMessage(e, first);
    }
  }

  lemma SavedNamed(history: seq<Event>)
    requires forall h | h in history :: SavedMessage(h)
    ensures forall h | h in ItemEvents(history) :: ItemId(h) != ""
  {
  }

  /** Attaching a turn's links gives exactly its messages their saved ids. */
  lemma LinksFit(
      first: Aliases, links: seq<AliasLink>, live: seq<Event>, history: seq<Event>, turn: string)
    requires Ordered(live) && StreamedThenSaved(live, history, first, turn)
    requires forall e | e in live :: e.eventId != ""
    requires var states := TurnFold(NEW_TURN, live, first, turn).states;
      OwnLinks(links, Links(states, ItemEvents(history), turn), live)
    ensures var states := TurnFold(NEW_TURN, live, first, turn).states;
      Fits(AttachAll(first, links), states, ItemEvents(history), live)
  {
    hide TurnFold, ItemEvents, Links, AttachAll, DistinctTexts, DistinctTargets, Repeats, LiveMessage, SavedMessage, OwnLinks,
      Fits, Unaliased, UiTypeOf, ItemId, Ordered;
    TargetsApart(live, first, turn);
    LiveUnaliased(live, first, turn);
    SavedNamed(history);
    var states, saved := TurnFold(NEW_TURN, live, first, turn).states, ItemEvents(history);
    ItemsFit(first, links, Links(states, saved, turn), states, saved, live, turn);
  }

  lemma LinkTargetsItem(states: seq<ItemState>, saved: seq<Event>, turn: string, link: AliasLink)
    requires link in Links(states, saved, turn)
    ensures exists i: nat :: i < |states| && states[i].target == link.target
  {
  }
}
