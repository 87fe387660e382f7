/** Which item an event goes to, what every item is made of, and how a turn ends: for any mix of live and saved records. */
module TimelineItems {
  import opened Records
  import opened Timeline
  import opened TimelineTheorems
  import opened TimelineLive

  // ----- the status -----

  predicate Ends(e: Event, turn: string) {
    e.InTurn(turn) && (e.kind == TurnCompleted || e.kind == TurnError || e.kind == TurnInterrupted)
  }

  /** What an ending record calls the turn: its own status, or else its kind's name. */
  predicate Calls(e: Event, status: string) {
    && (e.data.status != "" ==> status == e.data.status)
    && (e.data.status == "" && e.kind == TurnCompleted ==> status == "completed")
    && (e.data.status == "" && e.kind == TurnError ==> status == "error")
    && (e.data.status == "" && e.kind == TurnInterrupted ==> status == "interrupted")
  }

  ghost predicate EndsLast(events: seq<Event>, i: nat, turn: string) {
    i < |events| && Ends(events[i], turn) && forall e | e in events[i + 1..] :: !Ends(e, turn)
  }

  /** The last ending record decides; without one the turn is running. */
  ghost predicate StatusSays(events: seq<Event>, turn: string, status: string) {
    && ((forall e | e in events :: !Ends(e, turn)) ==> status == "running")
    && forall i: nat | EndsLast(events, i, turn) :: Calls(events[i], status)
  }

  /** The state of a turn after some records of the thread. */
  function StateAfter(events: seq<Event>, aliases: Aliases, turn: string): (ts: TurnState)
    ensures ts.Valid()
  {
    TurnFold(NEW_TURN, TurnEvents(events, turn), aliases, turn)
  }

  lemma StateSnoc(events: seq<Event>, last: Event, aliases: Aliases, turn: string)
    ensures var before := StateAfter(events, aliases, turn);
      StateAfter(events + [last], aliases, turn) == if last.InTurn(turn) then Apply(before, last, aliases, turn) else before
  {
    hide Apply, Event.InTurn;
    TurnEventsConcat(events, [last], turn);
    assert [last][..0] == [];
    var mine := TurnEvents(events, turn);
    assert TurnEvents([last], turn) == if last.InTurn(turn) then [last] else [];
    assert mine + [] == mine && (mine + [last])[..|mine|] == mine;
  }

  lemma StatusStep(ts: TurnState, e: Event, aliases: Aliases, turn: string)
    requires ts.Valid() && turn != ""
    ensures var after := (if e.InTurn(turn) then Apply(ts, e, aliases, turn) else ts).status;
      if Ends(e, turn) then Calls(e, after) else after == ts.status
  {
  }

  lemma StatusMore(events: seq<Event>, last: Event, turn: string, before: string, after: string)
    requires StatusSays(events, turn, before) && if Ends(last, turn) then Calls(last, after) else after == before
    ensures StatusSays(events + [last], turn, after)
  {
    hide Calls, Ends;
    var all := events + [last];
    assert last in all && forall e | e in events :: e in all;
    forall i: nat | EndsLast(all, i, turn) ensures Calls(all[i], after) {
      if i < |events| {
        assert all[i + 1..] == events[i + 1..] + [last];
        assert last in all[i + 1..];
        assert EndsLast(events, i, turn);
      }
    }
  }

  /** A turn's status comes from the last record that ends it. */
  lemma {:induction false} TurnStatus(events: seq<Event>, aliases: Aliases, turn: string)
    requires turn != ""
    ensures StatusSays(events, turn, StateAfter(events, aliases, turn).status)
  {
    hide Apply, StatusSays, Calls, Ends, StateAfter, Event.InTurn;
    if events == [] {
      NoStatus(aliases, turn);
    } else {
      var n := |events| - 1;
      var ts := StateAfter(events[..n], aliases, turn);
      assert events == events[..n] + [events[n]];
      TurnStatus(events[..n], aliases, turn);
      StateSnoc(events[..n], events[n], aliases, turn);
      StatusStep(ts, events[n], aliases, turn);
      StatusMore(events[..n], events[n], turn, ts.status, StateAfter(events, aliases, turn).status);
    }
  }

  lemma NoStatus(aliases: Aliases, turn: string)
    ensures StatusSays([], turn, StateAfter([], aliases, turn).status)
  {
  }

  // ----- the types -----

  /** The types the kinds show as; a general tool shows as the type in its payload, and the other kinds as nothing. */
  ghost predicate TypeFits(e: Event, ui: Option<UiType>) {
    && (e.kind == UserMessageCompleted ==> ui == Some(UserMessage))
    && (e.kind == AgentDelta || e.kind == AgentCheckpoint || e.kind == AgentCompleted ==> ui == Some(AgentMessage))
    && (e.kind == PlanUpdated ==> ui == Some(Plan))
    && (e.kind == CommandStarted || e.kind == CommandCompleted ==> ui == Some(CommandExecution))
    && (e.kind == FileChangeCompleted ==> ui == Some(FileChange))
    && (e.kind == WebSearchCompleted ==> ui == Some(WebSearch))
    && (e.kind == McpToolCompleted ==> ui == Some(McpToolCall))
    && (e.kind == ToolStarted || e.kind == ToolCompleted ==>
          ui == match e.data.item
                case Some(payload) => Some(payload.itemType.GetOr(NamedTool("tool")))
                case None => Some(NamedTool("tool")))
    && (e.kind.Terminal() || e.kind.OtherKind? || e.kind in {JournalOpened, TurnStarted, AliasAttached, BaselineImported} ==>
          ui == None)
  }

  lemma TypesFit(e: Event)
    ensures forall ui :: TypeFits(e, ui) <==> ui == UiTypeOf(e)
  {
  }

  // ----- what an item is made of -----

  /** The place of the item that a record goes to. */
  function GoesTo(ts: TurnState, e: Event, aliases: Aliases, turn: string): (i: Option<nat>)
    requires ts.Valid()
  {
    if e.kind.Terminal() || UiTypeOf(e).None? then None else Some(Placed(ts, UiTypeOf(e).value, e, aliases, turn).1)
  }

  /** The records of a turn that went to an item. */
  function MadeOf(mine: seq<Event>, i: nat, aliases: Aliases, turn: string): seq<Event> {
    if mine == [] then []
    else
      var n := |mine| - 1;
      MadeOf(mine[..n], i, aliases, turn)
        + if GoesTo(TurnFold(NEW_TURN, mine[..n], aliases, turn), mine[n], aliases, turn) == Some(i) then [mine[n]] else []
  }

  predicate IsUserMessage(e: Event) {
    UiTypeOf(e) == Some(UserMessage)
  }

  /** The attachments of a run of records: those of the last user message that has some. */
  function FilesFold(own: seq<Event>): seq<string> {
    if own == [] then []
    else
      var last := own[|own| - 1];
      if IsUserMessage(last) && last.data.attachments != [] then last.data.attachments else FilesFold(own[..|own| - 1])
  }

  predicate SomeUnavailable(own: seq<Event>) {
    exists e | e in own :: IsUserMessage(e) && e.data.attachmentsUnavailable
  }

  /** An item and the run of records it is the fold of; the first gives its place, its console id and its type. */
  predicate IsMadeOf(s: ItemState, own: seq<Event>) {
    && own != [] && s.target == own[0].eventId && s.firstSeq == own[0].sequence && UiTypeOf(own[0]) == Some(s.uiType)
    && s.text == TextFold(own) && s.item == PayloadFold(own)
    && s.attachments == FilesFold(own) && s.attachmentsUnavailable == SomeUnavailable(own)
  }

  predicate SameBody(s: ItemState, t: ItemState) {
    && s.target == t.target && s.firstSeq == t.firstSeq && s.uiType == t.uiType && s.text == t.text && s.item == t.item
    && s.attachments == t.attachments && s.attachmentsUnavailable == t.attachmentsUnavailable
  }

  predicate IsBlank(s: ItemState, ui: UiType, e: Event) {
    && s.target == e.eventId && s.firstSeq == e.sequence && s.uiType == ui && s.text == "" && s.item == None
    && s.attachments == [] && !s.attachmentsUnavailable
  }

  /** Placing a record leaves what the items say, and makes at most one more, blank and last. */
  lemma PlacedKeepsBodies(ts: TurnState, ui: UiType, e: Event, aliases: Aliases, turn: string)
    requires ts.Valid()
    ensures var (r, i) := Placed(ts, ui, e, aliases, turn);
      && |ts.states| <= |r.states| && (forall j | 0 <= j < |ts.states| :: SameBody(r.states[j], ts.states[j]))
      && (i < |ts.states| ==> |r.states| == |ts.states|)
      && (i >= |ts.states| ==> i == |ts.states| && |r.states| == |ts.states| + 1 && IsBlank(r.states[i], ui, e))
  {
    hide FindOwn, FindCross;
  }

  lemma SameBodyMadeOf(s: ItemState, t: ItemState, own: seq<Event>)
    requires SameBody(s, t) && IsMadeOf(t, own)
    ensures IsMadeOf(s, own)
  {
  }

  lemma FoldsSnoc(own: seq<Event>, e: Event, ui: UiType)
    requires UiTypeOf(e) == Some(ui)
    ensures TextFold(own + [e]) == (
      if e.kind == AgentDelta then TextFold(own) + e.data.delta else if ui.IsMessage() then TextOf(e) else TextFold(own))
    ensures PayloadFold(own + [e]) == if !ui.IsMessage() && e.data.item.Some? then e.data.item else PayloadFold(own)
    ensures FilesFold(own + [e]) == if ui == UserMessage && e.data.attachments != [] then e.data.attachments else FilesFold(own)
    ensures SomeUnavailable(own + [e]) <==> SomeUnavailable(own) || (ui == UserMessage && e.data.attachmentsUnavailable)
  {
    hide UiTypeOf;
    var all := own + [e];
    assert all[..|all| - 1] == own;
    assert e in all && forall d | d in all :: d in own || d == e;
  }

  lemma NothingFolded()
    ensures TextFold([]) == "" && PayloadFold([]) == None && FilesFold([]) == [] && !SomeUnavailable([])
  {
  }

  lemma CheckpointIsMessage(e: Event)
    ensures e.kind == AgentDelta || e.kind == AgentCheckpoint ==> UiTypeOf(e) == Some(AgentMessage)
  {
  }

  lemma ContentAdds(s: ItemState, own: seq<Event>, ui: UiType, e: Event)
    requires UiTypeOf(e) == Some(ui) && if own == [] then IsBlank(s, ui, e) else IsMadeOf(s, own)
    ensures IsMadeOf(Content(s, ui, e), own + [e])
  {
    hide UiTypeOf, TextFold, PayloadFold, FilesFold, SomeUnavailable, TextOf;
    FoldsSnoc(own, e, ui);
    NothingFolded();
    CheckpointIsMessage(e);
    assert own != [] ==> (own + [e])[0] == own[0];
  }

  ghost predicate AllMadeOf(states: seq<ItemState>, mine: seq<Event>, aliases: Aliases, turn: string) {
    && (forall i | 0 <= i < |states| :: IsMadeOf(states[i], MadeOf(mine, i, aliases, turn)))
    && forall i | i >= |states| :: MadeOf(mine, i, aliases, turn) == []
  }

  lemma MadeOfSnoc(mine: seq<Event>, e: Event, i: nat, aliases: Aliases, turn: string)
    ensures MadeOf(mine + [e], i, aliases, turn)
      == MadeOf(mine, i, aliases, turn)
         + if GoesTo(TurnFold(NEW_TURN, mine, aliases, turn), e, aliases, turn) == Some(i) then [e] else []
  {
  }

  lemma MadeOfElsewhere(mine: seq<Event>, e: Event, i: nat, aliases: Aliases, turn: string)
    requires GoesTo(TurnFold(NEW_TURN, mine, aliases, turn), e, aliases, turn) != Some(i)
    ensures MadeOf(mine + [e], i, aliases, turn) == MadeOf(mine, i, aliases, turn)
  {
    hide GoesTo, TurnFold;
    MadeOfSnoc(mine, e, i, aliases, turn);
  }

  lemma AppliedElsewhere(ts: TurnState, e: Event, aliases: Aliases, turn: string)
    requires ts.Valid() && GoesTo(ts, e, aliases, turn) == None
    ensures Apply(ts, e, aliases, turn).states == ts.states
  {
    hide Placed;
  }

  lemma AppliedThere(ts: TurnState, e: Event, aliases: Aliases, turn: string)
    requires ts.Valid() && GoesTo(ts, e, aliases, turn) != None
    ensures UiTypeOf(e).Some?
    ensures var (r, i) := Placed(ts, UiTypeOf(e).value, e, aliases, turn);
      && GoesTo(ts, e, aliases, turn) == Some(i)
      && Apply(ts, e, aliases, turn).states == r.states[i := Content(r.states[i], UiTypeOf(e).value, e)]
  {
    hide Placed, Content, UiTypeOf;
  }

  lemma StepMadeOf(mine: seq<Event>, e: Event, aliases: Aliases, turn: string)
    requires AllMadeOf(TurnFold(NEW_TURN, mine, aliases, turn).states, mine, aliases, turn)
    ensures AllMadeOf(Apply(TurnFold(NEW_TURN, mine, aliases, turn), e, aliases, turn).states, mine + [e], aliases, turn)
  {
    hide TurnFold, MadeOf, Placed, Content, Apply, UiTypeOf, GoesTo, IsMadeOf, SameBody, IsBlank;
    var ts := TurnFold(NEW_TURN, mine, aliases, turn);
    var after := Apply(ts, e, aliases, turn).states;
    var place := GoesTo(ts, e, aliases, turn);
    if place == None {
      AppliedElsewhere(ts, e, aliases, turn);
    } else {
      AppliedThere(ts, e, aliases, turn);
      PlacedKeepsBodies(ts, UiTypeOf(e).value, e, aliases, turn);
    }
    forall i: nat | i < |after| ensures IsMadeOf(after[i], MadeOf(mine + [e], i, aliases, turn)) {
      if place == Some(i) {
        var r := Placed(ts, UiTypeOf(e).value, e, aliases, turn).0;
        MadeOfSnoc(mine, e, i, aliases, turn);
        if i < |ts.states| {
          SameBodyMadeOf(r.states[i], ts.states[i], MadeOf(mine, i, aliases, turn));
          MadeOfSomething(ts.states[i], MadeOf(mine, i, aliases, turn));
        }
        ContentAdds(r.states[i], MadeOf(mine, i, aliases, turn), UiTypeOf(e).value, e);
      } else {
        MadeOfElsewhere(mine, e, i, aliases, turn);
        if place != None {
          SameBodyMadeOf(after[i], ts.states[i], MadeOf(mine, i, aliases, turn));
        }
      }
    }
    forall i: nat | i >= |after| ensures MadeOf(mine + [e], i, aliases, turn) == [] {
      MadeOfElsewhere(mine, e, i, aliases, turn);
    }
  }

  lemma MadeOfSomething(s: ItemState, own: seq<Event>)
    requires IsMadeOf(s, own)
    ensures own != []
  {
  }

  lemma NothingMade(aliases: Aliases, turn: string)
    ensures AllMadeOf(TurnFold(NEW_TURN, [], aliases, turn).states, [], aliases, turn)
  {
  }

  lemma {:induction false} FoldMadeOf(mine: seq<Event>, aliases: Aliases, turn: string)
    ensures AllMadeOf(TurnFold(NEW_TURN, mine, aliases, turn).states, mine, aliases, turn)
  {
    hide AllMadeOf, Apply;
    if mine == [] {
      NothingMade(aliases, turn);
    } else {
      var n := |mine| - 1;
      FoldMadeOf(mine[..n], aliases, turn);
      StepMadeOf(mine[..n], mine[n], aliases, turn);
      assert mine == mine[..n] + [mine[n]];
    }
  }

  /** A finished item and the records it was made of. */
  ghost predicate ShowsMade(item: Item, own: seq<Event>, thread: string, turn: string) {
    && own != [] && item.id == ConsoleId(thread, turn, own[0].eventId) && TypeFits(own[0], Some(item.uiType))
    && (if item.uiType.IsMessage() then item.text == TextFold(own) && item.payload == None
        else item.text == "" && item.payload == PayloadFold(own))
    && item.attachments == (if item.uiType == UserMessage then FilesFold(own) else [])
    && (item.attachmentsUnavailable <==> item.uiType == UserMessage && FilesFold(own) == [] && SomeUnavailable(own))
  }

  lemma ShownMade(s: ItemState, own: seq<Event>, thread: string, turn: string)
    requires IsMadeOf(s, own)
    ensures ShowsMade(Shown(s, thread, turn), own, thread, turn)
  {
    TypesFit(own[0]);
    hide TypeFits, UiTypeOf, TextFold, PayloadFold, FilesFold, SomeUnavailable;
  }

  /** In a journal in order, the items of a turn are one by one the folds of the records that went to them, whatever their mix. */
  lemma ItemsAreMade(events: seq<Event>, thread: string, turn: string)
    requires Ordered(events) && turn != ""
    ensures var mine, aliases, shown := TurnEvents(events, turn), AliasesByTarget(events), TurnOf(events, thread, turn);
      && StatusSays(events, turn, shown.status)
      && var states := StateAfter(events, aliases, turn).states;
      && |shown.items| == |states|
      && forall i | 0 <= i < |states| ::
           && ShowsMade(shown.items[i], MadeOf(mine, i, aliases, turn), thread, turn)
           && shown.items[i].unresolved == states[i].unresolved && shown.items[i].sourceIds == states[i].sourceIds
  {
    hide TurnFold, Items, MadeOf, IsMadeOf, ShowsMade, StatusSays, Ordered;
    var mine, aliases := TurnEvents(events, turn), AliasesByTarget(events);
    TurnEventsOrdered(events, turn);
    ItemsInCreationOrder(mine, aliases, thread, turn);
    FoldMadeOf(mine, aliases, turn);
    TurnStatus(events, aliases, turn);
    var states := TurnFold(NEW_TURN, mine, aliases, turn).states;
    forall i | 0 <= i < |states| ensures ShowsMade(Shown(states[i], thread, turn), MadeOf(mine, i, aliases, turn), thread, turn) {
      ShownMade(states[i], MadeOf(mine, i, aliases, turn), thread, turn);
    }
  }

  // ----- which item a record goes to -----

  /** The item carries attachments, or lacks some, under the record's words. */
  predicate SameFiles(s: ItemState, e: Event) {
    && s.uiType == UserMessage && (s.attachments != [] || s.attachmentsUnavailable)
    && s.text == (if e.data.text != "" then e.data.text else e.data.delta)
  }

  /** An item of the type that the other source alone knows, and that says the same: the words, or all of the tool but its id. */
  predicate SaysSame(s: ItemState, ui: UiType, e: Event) {
    && s.uiType == ui && e.source !in s.sourceIds
    && (if e.source == CodexStream then CodexHistory else CodexStream) in s.sourceIds
    && (ui.IsMessage() ==> s.text != "" && s.text == (if e.data.text != "" then e.data.text else e.data.delta))
    && (!ui.IsMessage() ==>
          && s.item.Some? && e.data.item.Some?
          && s.item.value.itemType == e.data.item.value.itemType && s.item.value.rest == e.data.item.value.rest
          && !(s.item.value.itemType == None && s.item.value.rest == map[]))
  }

  ghost predicate SoleFiles(states: seq<ItemState>, i: nat, e: Event) {
    i < |states| && SameFiles(states[i], e) && forall j | 0 <= j < |states| && SameFiles(states[j], e) :: j == i
  }

  ghost predicate SoleSaying(states: seq<ItemState>, i: nat, ui: UiType, e: Event) {
    i < |states| && SaysSame(states[i], ui, e) && forall j | 0 <= j < |states| && SaysSame(states[j], ui, e) :: j == i
  }

  lemma {:induction false} FilesFound(states: seq<ItemState>, e: Event)
    ensures var found := AttachmentMatches(states, UserMessage, TextOf(e));
      && (forall i :: i in found <==> 0 <= i < |states| && SameFiles(states[i], e))
      && forall a, b | 0 <= a < b < |found| :: found[a] < found[b]
  {
    hide SameFiles, AttachmentMatch, TextOf;
    if states != [] {
      var n := |states| - 1;
      FilesFound(states[..n], e);
      var earlier := AttachmentMatches(states[..n], UserMessage, TextOf(e));
      assert forall a | 0 <= a < |earlier| :: earlier[a] in earlier;
      SameIsAttached(states[n], e);
    }
  }

  lemma SameIsAttached(s: ItemState, e: Event)
    ensures AttachmentMatch(s, UserMessage, TextOf(e)) <==> SameFiles(s, e)
  {
  }

  lemma {:induction false} SayingsFound(states: seq<ItemState>, ui: UiType, e: Event)
    requires !e.source.OtherSource?
    ensures var found := CrossMatches(states, ui, e);
      && (forall i :: i in found <==> 0 <= i < |states| && SaysSame(states[i], ui, e))
      && forall a, b | 0 <= a < b < |found| :: found[a] < found[b]
  {
    hide SaysSame, CrossMatch;
    if states != [] {
      var n := |states| - 1;
      SayingsFound(states[..n], ui, e);
      SameIsCross(states[n], ui, e);
      var earlier := CrossMatches(states[..n], ui, e);
      assert forall a | 0 <= a < |earlier| :: earlier[a] in earlier;
    }
  }

  lemma SameIsCross(s: ItemState, ui: UiType, e: Event)
    requires !e.source.OtherSource?
    ensures CrossMatch(s, ui, e) <==> SaysSame(s, ui, e)
  {
  }

  /** A list in order has one member exactly when it has a sole one. */
  lemma NotOnlyOne(found: seq<nat>, i: nat)
    requires forall a, b | 0 <= a < b < |found| :: found[a] < found[b]
    requires |found| != 1 && i in found
    ensures exists j :: j in found && j != i
  {
    assert found[0] in found && found[1] in found;
  }

  lemma FilesSole(states: seq<ItemState>, e: Event)
    ensures var found := AttachmentMatches(states, UserMessage, TextOf(e));
      if |found| == 1 then SoleFiles(states, found[0], e) else forall i: nat :: !SoleFiles(states, i, e)
  {
    hide SameFiles, AttachmentMatches, TextOf;
    var found := AttachmentMatches(states, UserMessage, TextOf(e));
    FilesFound(states, e);
    if |found| == 1 {
      assert found[0] in found;
    } else {
      forall i: nat ensures !SoleFiles(states, i, e) {
        if SoleFiles(states, i, e) {
          NotOnlyOne(found, i);
        }
      }
    }
  }

  lemma SayingSole(states: seq<ItemState>, ui: UiType, e: Event)
    requires !e.source.OtherSource?
    ensures var found := CrossMatches(states, ui, e);
      if |found| == 1 then SoleSaying(states, found[0], ui, e) else forall i: nat :: !SoleSaying(states, i, ui, e)
  {
    hide SaysSame, CrossMatches;
    var found := CrossMatches(states, ui, e);
    SayingsFound(states, ui, e);
    if |found| == 1 {
      assert found[0] in found;
    } else {
      forall i: nat ensures !SoleSaying(states, i, ui, e) {
        if SoleSaying(states, i, ui, e) {
          NotOnlyOne(found, i);
        }
      }
    }
  }

  lemma OwnPlace(ts: TurnState, ui: UiType, e: Event)
    requires ts.Valid()
    ensures var known := e.itemId.Some? && e.itemId.value != "" && SourceId(e.source, e.itemId.value) in ts.bySource;
      var files := ui == UserMessage && (e.data.attachments != [] || e.data.attachmentsUnavailable);
      match FindOwn(ts, ui, e)
      case Some(i) => if known then i == ts.bySource[SourceId(e.source, e.itemId.value)] else files && SoleFiles(ts.states, i, e)
      case None => !known && (files ==> forall i: nat :: !SoleFiles(ts.states, i, e))
  {
    hide SoleFiles, AttachmentMatches, TextOf;
    FilesSole(ts.states, e);
  }

  lemma CrossPlace(ts: TurnState, ui: UiType, e: Event)
    ensures match FindCross(ts, ui, e)
      case Some(i) => !e.source.OtherSource? && SoleSaying(ts.states, i, ui, e)
      case None => e.source.OtherSource? || forall i: nat :: !SoleSaying(ts.states, i, ui, e)
  {
    hide SoleSaying, CrossMatches;
    if !e.source.OtherSource? {
      SayingSole(ts.states, ui, e);
    }
  }

  lemma NewPlace(ts: TurnState, ui: UiType, e: Event, aliases: Aliases)
    requires ts.Valid()
    ensures var r, n := Created(ts, ui, e, aliases), |ts.states|;
      && |r.states| == n + 1 && r.suggestions == ts.suggestions
      && (r.states[n].unresolved <==> exists j :: 0 <= j < n && Unmatched(ts.states[j], ui, e))
      && forall j | 0 <= j < n :: r.states[j].unresolved <==> ts.states[j].unresolved || Unmatched(ts.states[j], ui, e)
  {
    hide InitialIds, IndexOf;
  }

  /** Items that the source of a new item does not know yet. */
  predicate Unmatched(s: ItemState, ui: UiType, e: Event) {
    s.uiType == ui && e.source !in s.sourceIds
  }

  /**
   * Where a record goes: to the item its source knows by its id; else a message with attachments to the only one with the same
   * words and attachments; else to the only item of the other source that says the same, and then an alias is suggested; else
   * to a new item, which stands unresolved with every item of its type that its source does not know.
   */
  lemma PlacedSays(ts: TurnState, ui: UiType, e: Event, aliases: Aliases, turn: string)
    requires ts.Valid()
    ensures var (r, i) := Placed(ts, ui, e, aliases, turn);
      var n, id := |ts.states|, e.itemId.GetOr("");
      var known := id != "" && SourceId(e.source, id) in ts.bySource;
      var files := ui == UserMessage && (e.data.attachments != [] || e.data.attachmentsUnavailable);
      if known then i == ts.bySource[SourceId(e.source, id)] && r.suggestions == ts.suggestions
      else if files && exists j: nat :: SoleFiles(ts.states, j, e) then SoleFiles(ts.states, i, e) && r.suggestions == ts.suggestions
      else if !e.source.OtherSource? && exists j: nat :: SoleSaying(ts.states, j, ui, e) then
        && SoleSaying(ts.states, i, ui, e)
        && r.suggestions
           == ts.suggestions + (if id == "" then [] else [AliasLink(turn, ts.states[i].target, Some(e.source), id)])
      else
        && i == n && |r.states| == n + 1 && r.suggestions == ts.suggestions
        && (r.states[n].unresolved <==> exists j :: 0 <= j < n && Unmatched(ts.states[j], ui, e))
        && forall j | 0 <= j < n :: r.states[j].unresolved <==> ts.states[j].unresolved || Unmatched(ts.states[j], ui, e)
  {
    hide SoleFiles, SoleSaying, FindOwn, FindCross, Created, Unmatched;
    OwnPlace(ts, ui, e);
    CrossPlace(ts, ui, e);
    NewPlace(ts, ui, e, aliases);
  }

  /** The item is known to a source by an id. */
  predicate Knows(s: ItemState, source: Source, id: string) {
    source in s.sourceIds && s.sourceIds[source] == id
  }

  /**
   * How a record's item is known afterwards: an item that was there by the record's id as well, a new one by the record's id and
   * the ids attached to the record, which come first; every id of a new item and the record's own then lead to the item, and
   * what other ids lead to, and how other items are known, stays.
   */
  lemma PlacedKnows(ts: TurnState, ui: UiType, e: Event, aliases: Aliases, turn: string)
    requires ts.Valid()
    ensures var (r, i) := Placed(ts, ui, e, aliases, turn);
      var n, id := |ts.states|, e.itemId.GetOr("");
      && (forall j | 0 <= j < n && j != i :: r.states[j].sourceIds == ts.states[j].sourceIds)
      && (i < n ==> forall source, x ::
            Knows(r.states[i], source, x) == if source == e.source && id != "" then x == id else Knows(ts.states[i], source, x))
      && (i == n ==> forall source, x ::
            Knows(r.states[n], source, x)
            == if HasAlias(aliases, e.eventId, source) then x == aliases[e.eventId][source]
               else source == e.source && id != "" && x == id)
      && (forall source, x | Knows(r.states[i], source, x) && (i == n || (source == e.source && id != "")) ::
            SourceId(source, x) in r.bySource && r.bySource[SourceId(source, x)] == i)
      && (forall key | key in r.bySource ::
            (key in ts.bySource && r.bySource[key] == ts.bySource[key])
            || (r.bySource[key] == i && Knows(r.states[i], key.source, key.id)))
      && forall key | key in ts.bySource :: key in r.bySource
  {
    hide FindOwn, FindCross;
  }

  // ----- the attached ids -----

  /** A record that attaches an id to an event. */
  predicate Attaches(e: Event, target: string, source: Source) {
    && e.kind == AliasAttached && e.data.alias.Some? && e.data.alias.value.target == target && target != ""
    && e.data.alias.value.source == Some(source) && e.data.alias.value.sourceId != ""
  }

  ghost predicate AttachesLast(events: seq<Event>, i: nat, target: string, source: Source) {
    i < |events| && Attaches(events[i], target, source) && forall e | e in events[i + 1..] :: !Attaches(e, target, source)
  }

  predicate HasAlias(aliases: Aliases, target: string, source: Source) {
    target in aliases && source in aliases[target]
  }

  /** For each target and source, the attached id is that of the last record attaching one. */
  ghost predicate AliasesSay(events: seq<Event>, target: string, source: Source, aliases: Aliases) {
    && (HasAlias(aliases, target, source) <==> exists e :: e in events && Attaches(e, target, source))
    && forall i: nat | AttachesLast(events, i, target, source) :: HasAttached(aliases, target, source, events[i])
  }

  predicate HasAttached(aliases: Aliases, target: string, source: Source, e: Event) {
    HasAlias(aliases, target, source) && e.data.alias.Some? && aliases[target][source] == e.data.alias.value.sourceId
  }

  lemma AttachStep(aliases: Aliases, e: Event, target: string, source: Source)
    ensures var after := if e.kind == AliasAttached && e.data.alias.Some? then Attach(aliases, e.data.alias.value) else aliases;
      if Attaches(e, target, source) then HasAttached(after, target, source, e)
      else
        && (HasAlias(after, target, source) <==> HasAlias(aliases, target, source))
        && forall d | HasAttached(aliases, target, source, d) :: HasAttached(after, target, source, d)
  {
  }

  lemma LastAttaches(events: seq<Event>, last: Event, i: nat, target: string, source: Source)
    requires AttachesLast(events + [last], i, target, source)
    ensures if Attaches(last, target, source) then i == |events| else AttachesLast(events, i, target, source)
  {
    var all := events + [last];
    if i < |events| {
      assert all[i + 1..] == events[i + 1..] + [last];
      assert last in all[i + 1..];
    }
  }

  /** In any journal, the id attached to an event for a source is the last one recorded. */
  lemma {:induction false} AliasesAre(events: seq<Event>, target: string, source: Source)
    ensures AliasesSay(events, target, source, AliasesByTarget(events))
  {
    hide Attaches, Attach, HasAlias, HasAttached;
    if events == [] {
      NoAliases(target, source);
    } else {
      var n := |events| - 1;
      var front, last := events[..n], events[n];
      assert events == front + [last];
      AliasesAre(front, target, source);
      AttachStep(AliasesByTarget(front), last, target, source);
      AttachedHas(AliasesByTarget(events), target, source, last);
      assert last in events && forall e :: e in events <==> e in front || e == last;
      forall i: nat | AttachesLast(events, i, target, source)
        ensures HasAttached(AliasesByTarget(events), target, source, events[i])
      {
        LastAttaches(front, last, i, target, source);
      }
    }
  }

  lemma AttachedHas(aliases: Aliases, target: string, source: Source, e: Event)
    ensures HasAttached(aliases, target, source, e) ==> HasAlias(aliases, target, source)
  {
  }

  lemma NoAliases(target: string, source: Source)
    ensures AliasesSay([], target, source, AliasesByTarget([]))
  {
  }
}
