/** `materialize_timeline`: the fold that merges the live stream and the saved history of each turn. */
module Timeline {
  import opened Records
  import opened Sorting

  datatype SourceId = SourceId(source: Source, id: string)

  /** One timeline item while it is being built; no attachments stand for an absent list. */
  datatype ItemState = ItemState(
    target: string, sourceIds: map<Source, string>, uiType: UiType, firstSeq: nat, text: string,
    item: Option<Payload>, unresolved: bool, attachments: seq<string>, attachmentsUnavailable: bool)

  /** A turn while it is being built; `bySource` holds positions in `states`. */
  datatype TurnState = TurnState(
    states: seq<ItemState>, bySource: map<SourceId, nat>, status: string, suggestions: seq<AliasLink>)
  {
    predicate Valid() {
      forall key | key in bySource :: bySource[key] < |states|
    }
  }

  type Aliases = map<string, map<Source, string>>

  const NEW_TURN := TurnState([], map[], "running", [])

  // ----- events -----

  function PayloadType(e: Event): UiType {
    if e.data.item.Some? && e.data.item.value.itemType.Some? then e.data.item.value.itemType.value else NamedTool("tool")
  }

  /** The item type an event shows as; `None` for events that make no item. */
  function UiTypeOf(e: Event): Option<UiType> {
    match e.kind
    case UserMessageCompleted => Some(UserMessage)
    case AgentDelta => Some(AgentMessage)
    case AgentCheckpoint => Some(AgentMessage)
    case AgentCompleted => Some(AgentMessage)
    case PlanUpdated => Some(Plan)
    case CommandStarted => Some(CommandExecution)
    case CommandCompleted => Some(CommandExecution)
    case FileChangeCompleted => Some(FileChange)
    case WebSearchCompleted => Some(WebSearch)
    case McpToolCompleted => Some(McpToolCall)
    case ToolStarted => Some(PayloadType(e))
    case ToolCompleted => Some(PayloadType(e))
    case _ => None
  }

  function TextOf(e: Event): string {
    if e.data.text != "" then e.data.text else e.data.delta
  }

  function ItemId(e: Event): string {
    e.itemId.GetOr("")
  }

  function TerminalName(kind: Kind): string {
    match kind
    case TurnCompleted => "completed"
    case TurnError => "error"
    case _ => "interrupted"
  }

  function HasAttachments(d: Data): bool {
    d.attachments != [] || d.attachmentsUnavailable
  }

  /** Attached ids by the event they point at; later records win. */
  function AliasesByTarget(events: seq<Event>): Aliases {
    if events == [] then map[]
    else
      var last := events[|events| - 1];
      var earlier := AliasesByTarget(events[..|events| - 1]);
      if last.kind == AliasAttached && last.data.alias.Some? then Attach(earlier, last.data.alias.value) else earlier
  }

  function Attach(aliases: Aliases, link: AliasLink): Aliases {
    if link.target == "" || link.source.None? || link.sourceId == "" then aliases
    else
      var known := if link.target in aliases then aliases[link.target] else map[];
      aliases[link.target := known[link.source.value := link.sourceId]]
  }

  // ----- finding the item an event belongs to -----

  predicate AttachmentMatch(s: ItemState, ui: UiType, text: string) {
    s.uiType == ui && s.text == text && (s.attachments != [] || s.attachmentsUnavailable)
  }

  function OtherSide(source: Source): Source {
    if source == CodexHistory then CodexStream else CodexHistory
  }

  predicate SameContent(s: ItemState, ui: UiType, e: Event) {
    if ui.IsMessage() then TextOf(e) != "" && s.text == TextOf(e)
    else
      && e.data.item.Some? && (e.data.item.value.itemType.Some? || e.data.item.value.rest != map[])
      && s.item.Some? && s.item.value.(id := "") == e.data.item.value.(id := "")
  }

  /** An item of the same type and content that only the other source knows. */
  predicate CrossMatch(s: ItemState, ui: UiType, e: Event) {
    s.uiType == ui && e.source !in s.sourceIds && OtherSide(e.source) in s.sourceIds && SameContent(s, ui, e)
  }

  function AttachmentMatches(states: seq<ItemState>, ui: UiType, text: string): (found: seq<nat>)
    ensures forall i | i in found :: i < |states|
  {
    if states == [] then []
    else
      var n := |states| - 1;
      AttachmentMatches(states[..n], ui, text) + if AttachmentMatch(states[n], ui, text) then [n] else []
  }

  function CrossMatches(states: seq<ItemState>, ui: UiType, e: Event): (found: seq<nat>)
    ensures forall i | i in found :: i < |states|
  {
    if states == [] then []
    else
      var n := |states| - 1;
      CrossMatches(states[..n], ui, e) + if CrossMatch(states[n], ui, e) then [n] else []
  }

  /** By id, then for a user message with attachments by its attachments. */
  function FindOwn(ts: TurnState, ui: UiType, e: Event): (found: Option<nat>)
    requires ts.Valid()
    ensures found.Some? ==> found.value < |ts.states|
  {
    var key := SourceId(e.source, ItemId(e));
    if ItemId(e) != "" && key in ts.bySource then Some(ts.bySource[key])
    else if ui == UserMessage && HasAttachments(e.data) then
      var matches := AttachmentMatches(ts.states, ui, TextOf(e));
      if |matches| == 1 then assert matches[0] in matches; Some(matches[0]) else None
    else None
  }

  /** The only item of the other source with the same content. */
  function FindCross(ts: TurnState, ui: UiType, e: Event): (found: Option<nat>)
    ensures found.Some? ==> found.value < |ts.states|
  {
    if e.source.OtherSource? then None
    else
      var matches := CrossMatches(ts.states, ui, e);
      if |matches| == 1 then assert matches[0] in matches; Some(matches[0]) else None
  }

  // ----- one event -----

  function Claimed(ts: TurnState, i: nat, e: Event): (r: TurnState)
    requires ts.Valid() && i < |ts.states|
    ensures r.Valid() && |r.states| == |ts.states|
  {
    if ItemId(e) == "" then ts
    else
      ts.(states := ts.states[i := ts.states[i].(sourceIds := ts.states[i].sourceIds[e.source := ItemId(e)])],
          bySource := ts.bySource[SourceId(e.source, ItemId(e)) := i])
  }

  function Suggested(ts: TurnState, i: nat, e: Event, turn: string): (r: TurnState)
    requires ts.Valid() && i < |ts.states|
    ensures r.Valid() && r.states == ts.states && r.bySource == ts.bySource
  {
    if ItemId(e) == "" then ts
    else ts.(suggestions := ts.suggestions + [AliasLink(turn, ts.states[i].target, Some(e.source), ItemId(e))])
  }

  predicate Conflicting(s: ItemState, ui: UiType, source: Source) {
    s.uiType == ui && source !in s.sourceIds
  }

  function Marked(states: seq<ItemState>, ui: UiType, source: Source): (r: seq<ItemState>)
    ensures |r| == |states|
    ensures forall i | 0 <= i < |r| ::
      r[i] == if Conflicting(states[i], ui, source) then states[i].(unresolved := true) else states[i]
  {
    seq(|states|, i requires 0 <= i < |states| =>
      if Conflicting(states[i], ui, source) then states[i].(unresolved := true) else states[i])
  }

  function InitialIds(e: Event, aliases: Aliases): map<Source, string> {
    var own := if ItemId(e) != "" then map[e.source := ItemId(e)] else map[];
    if e.eventId in aliases then own + aliases[e.eventId] else own
  }

  function IndexOf(ids: map<Source, string>, n: nat): (index: map<SourceId, nat>)
    ensures forall key :: key in index <==> key.source in ids && ids[key.source] == key.id
    ensures forall key | key in index :: index[key] == n
  {
    map source | source in ids :: SourceId(source, ids[source]) := n
  }

  function Created(ts: TurnState, ui: UiType, e: Event, aliases: Aliases): (r: TurnState)
    requires ts.Valid()
    ensures r.Valid() && |r.states| == |ts.states| + 1
  {
    var n := |ts.states|;
    var ids := InitialIds(e, aliases);
    var conflict := exists s :: s in ts.states && Conflicting(s, ui, e.source);
    ts.(states := Marked(ts.states, ui, e.source) + [ItemState(e.eventId, ids, ui, e.sequence, "", None, conflict, [], false)],
        bySource := ts.bySource + IndexOf(ids, n))
  }

  function Content(s: ItemState, ui: UiType, e: Event): ItemState {
    var shown :=
      if e.kind == AgentDelta then s.(text := s.text + e.data.delta)
      else if e.kind == AgentCheckpoint || ui.IsMessage() then s.(text := TextOf(e))
      else if e.data.item.Some? then s.(item := e.data.item)
      else s;
    if ui != UserMessage then shown
    else shown.(attachments := if e.data.attachments != [] then e.data.attachments else s.attachments,
                attachmentsUnavailable := e.data.attachmentsUnavailable || s.attachmentsUnavailable)
  }

  function Filled(ts: TurnState, i: nat, ui: UiType, e: Event): (r: TurnState)
    requires ts.Valid() && i < |ts.states|
    ensures r.Valid() && |r.states| == |ts.states|
  {
    ts.(states := ts.states[i := Content(ts.states[i], ui, e)])
  }

  /** Finds or creates the item of an event. */
  function Placed(ts: TurnState, ui: UiType, e: Event, aliases: Aliases, turn: string): (r: (TurnState, nat))
    requires ts.Valid()
    ensures r.0.Valid() && r.1 < |r.0.states|
  {
    var own := FindOwn(ts, ui, e);
    if own.Some? then (Claimed(ts, own.value, e), own.value)
    else
      var cross := FindCross(ts, ui, e);
      if cross.Some? then (Suggested(Claimed(ts, cross.value, e), cross.value, e, turn), cross.value)
      else (Created(ts, ui, e, aliases), |ts.states|)
  }

  function Apply(ts: TurnState, e: Event, aliases: Aliases, turn: string): (r: TurnState)
    requires ts.Valid()
    ensures r.Valid()
  {
    if e.kind.Terminal() then ts.(status := if e.data.status != "" then e.data.status else TerminalName(e.kind))
    else
      match UiTypeOf(e)
      case None => ts
      case Some(ui) =>
        var (placed, i) := Placed(ts, ui, e, aliases, turn);
        Filled(placed, i, ui, e)
  }

  function TurnFold(start: TurnState, events: seq<Event>, aliases: Aliases, turn: string): (r: TurnState)
    requires start.Valid()
    ensures r.Valid()
  {
    if events == [] then start
    else
      Apply(TurnFold(start, events[..|events| - 1], aliases, turn), events[|events| - 1], aliases, turn)
  }

  // ----- the finished timeline -----

  /** An item's id in the console is made from its thread, its turn and the event that created it. */
  datatype ConsoleId = ConsoleId(thread: string, turn: string, target: string)

  datatype Item = Item(
    id: ConsoleId, sourceIds: map<Source, string>, uiType: UiType, text: string, payload: Option<Payload>,
    attachments: seq<string>, attachmentsUnavailable: bool, unresolved: bool)

  datatype Turn = Turn(id: string, status: string, items: seq<Item>)

  function Shown(s: ItemState, thread: string, turn: string): Item {
    if s.uiType.IsMessage() then
      Item(ConsoleId(thread, turn, s.target), s.sourceIds, s.uiType, s.text, None,
           if s.uiType == UserMessage then s.attachments else [],
           s.uiType == UserMessage && s.attachmentsUnavailable && s.attachments == [], s.unresolved)
    else
      Item(ConsoleId(thread, turn, s.target), s.sourceIds, s.uiType, "", s.item, [], false, s.unresolved)
  }

  function Items(states: seq<ItemState>, thread: string, turn: string): (r: seq<Item>)
    ensures |r| == |StableSort(states, (a: ItemState, b: ItemState) => a.firstSeq < b.firstSeq)|
  {
    var ordered := StableSort(states, (a: ItemState, b: ItemState) => a.firstSeq < b.firstSeq);
    seq(|ordered|, i requires 0 <= i < |ordered| => Shown(ordered[i], thread, turn))
  }

  function TurnStateOf(events: seq<Event>, turn: string): (r: TurnState)
    ensures r.Valid()
  {
    TurnFold(NEW_TURN, TurnEvents(events, turn), AliasesByTarget(events), turn)
  }

  function TurnOf(events: seq<Event>, thread: string, turn: string): Turn {
    var ts := TurnStateOf(events, turn);
    Turn(turn, ts.status, Items(ts.states, thread, turn))
  }

  // ----- the order of turns -----

  /** Turns by their first record. */
  function TurnOrder(events: seq<Event>): seq<string> {
    if events == [] then []
    else
      var last := events[|events| - 1];
      var earlier := TurnOrder(events[..|events| - 1]);
      if last.turnId.Some? && last.turnId.value != "" && last.turnId.value !in earlier
      then earlier + [last.turnId.value] else earlier
  }

  /** A turn's place: by its history ordinal, then the live-only turns by their first record. */
  datatype TurnRank = TurnRank(liveOnly: bool, position: int)
  {
    predicate Before(other: TurnRank) {
      if liveOnly != other.liveOnly then other.liveOnly else position < other.position
    }
  }

  function Least(a: Option<int>, b: int): Option<int> {
    if a.None? || b < a.value then Some(b) else a
  }

  function HistoryOrdinal(events: seq<Event>): Option<int> {
    if events == [] then None
    else
      var last := events[|events| - 1];
      var earlier := HistoryOrdinal(events[..|events| - 1]);
      if last.kind == TurnStarted && last.source == CodexHistory && last.data.ordinal.Some?
      then Least(earlier, last.data.ordinal.value) else earlier
  }

  function FirstSequence(events: seq<Event>): Option<int> {
    if events == [] then None else Least(FirstSequence(events[..|events| - 1]), events[|events| - 1].sequence)
  }

  function RankOf(events: seq<Event>): TurnRank {
    var ordinal := HistoryOrdinal(events);
    if ordinal.Some? then TurnRank(false, ordinal.value) else TurnRank(true, FirstSequence(events).GetOr(0))
  }

  function SortedTurns(events: seq<Event>): seq<string> {
    StableSort(TurnOrder(events),
               (a: string, b: string) => RankOf(TurnEvents(events, a)).Before(RankOf(TurnEvents(events, b))))
  }

  // ----- what that order is -----

  lemma {:induction false} TurnOrderMembers(events: seq<Event>)
    ensures forall t :: t in TurnOrder(events) <==> exists e :: e in events && e.InTurn(t)
  {
    if events != [] {
      var n := |events| - 1;
      assert events == events[..n] + [events[n]];
      TurnOrderMembers(events[..n]);
      forall t ensures t in TurnOrder(events) <==> exists e :: e in events && e.InTurn(t) {
        if events[n].InTurn(t) {
          assert events[n] in events;
        }
        if e :| e in events && e.InTurn(t) {
          assert e in events[..n] || e == events[n];
        }
      }
    }
  }

  lemma {:induction false} TurnOrderDistinct(events: seq<Event>)
    ensures Distinct(TurnOrder(events))
  {
    if events != [] {
      TurnOrderDistinct(events[..|events| - 1]);
    }
  }

  /** The saved start of a turn, with its place in the history. */
  predicate Placing(e: Event, turn: string) {
    e.turnId == Some(turn) && e.kind == TurnStarted && e.source == CodexHistory && e.data.ordinal.Some?
  }

  ghost predicate Appears(events: seq<Event>, turn: string) {
    exists e :: e in events && e.turnId == Some(turn)
  }

  ghost predicate HasPlace(events: seq<Event>, turn: string) {
    exists e :: e in events && Placing(e, turn)
  }

  /** Some saved start of the turn comes at this place or before it. */
  ghost predicate PlacedBy(events: seq<Event>, turn: string, ordinal: int) {
    exists d :: d in events && Placing(d, turn) && d.data.ordinal.value <= ordinal
  }

  /** Some record of the turn has this sequence or an earlier one. */
  ghost predicate BegunBy(events: seq<Event>, turn: string, sequence: int) {
    exists d :: d in events && d.turnId == Some(turn) && d.sequence <= sequence
  }

  /** Turns of the history stand by their least place and before the others, which stand by their first record. */
  ghost predicate MayPrecede(events: seq<Event>, a: string, b: string) {
    && (HasPlace(events, b) ==> HasPlace(events, a))
    && (HasPlace(events, b) ==> forall e | e in events && Placing(e, b) :: PlacedBy(events, a, e.data.ordinal.value))
    && (!HasPlace(events, a) ==> forall e | e in events && e.turnId == Some(b) :: BegunBy(events, a, e.sequence))
  }

  lemma {:induction false} HistoryOrdinalIs(events: seq<Event>)
    ensures var least := HistoryOrdinal(events);
      && (forall e | e in events && e.kind == TurnStarted && e.source == CodexHistory && e.data.ordinal.Some? ::
            least.Some? && least.value <= e.data.ordinal.value)
      && (least.Some? ==> exists e :: e in events && e.kind == TurnStarted && e.source == CodexHistory && e.data.ordinal == least)
  {
    if events != [] {
      var n := |events| - 1;
      assert events == events[..n] + [events[n]];
      HistoryOrdinalIs(events[..n]);
    }
  }

  lemma {:induction false} FirstSequenceIs(events: seq<Event>)
    ensures var least := FirstSequence(events);
      && (forall e | e in events :: least.Some? && least.value <= e.sequence)
      && (least.Some? ==> exists e :: e in events && e.sequence == least.value)
  {
    if events != [] {
      var n := |events| - 1;
      assert events == events[..n] + [events[n]];
      FirstSequenceIs(events[..n]);
    }
  }

  /** A turn that is not ranked after another may precede it. */
  lemma RankSays(events: seq<Event>, a: string, b: string)
    requires a != "" && b != "" && exists e :: e in events && e.InTurn(a)
    requires !RankOf(TurnEvents(events, b)).Before(RankOf(TurnEvents(events, a)))
    ensures MayPrecede(events, a, b)
  {
    TurnEventsMembers(events, a);
    TurnEventsMembers(events, b);
    HistoryOrdinalIs(TurnEvents(events, a));
    HistoryOrdinalIs(TurnEvents(events, b));
    FirstSequenceIs(TurnEvents(events, a));
    FirstSequenceIs(TurnEvents(events, b));
    hide TurnEvents, HistoryOrdinal, FirstSequence;
    var ours, theirs := TurnEvents(events, a), TurnEvents(events, b);
    assert forall e | e in events && Placing(e, b) :: e in theirs;
    assert forall e | e in events && Placing(e, a) :: e in ours;
    assert forall e | e in events && e.turnId == Some(b) :: e in theirs;
  }

  /** The turns with a record, each once, none after one that it must precede. */
  ghost predicate InTurnOrder(events: seq<Event>, order: seq<string>) {
    && Distinct(order)
    && (forall t :: t in order <==> exists e :: e in events && e.InTurn(t))
    && forall i, j | 0 <= i < j < |order| :: MayPrecede(events, order[i], order[j])
  }

  lemma RanksOrder(events: seq<Event>)
    ensures Orders((a: string, b: string) => RankOf(TurnEvents(events, a)).Before(RankOf(TurnEvents(events, b))))
  {
    hide RankOf, TurnEvents;
  }

  lemma SortedTurnsInOrder(events: seq<Event>)
    ensures InTurnOrder(events, SortedTurns(events))
  {
    var precedes := (a: string, b: string) => RankOf(TurnEvents(events, a)).Before(RankOf(TurnEvents(events, b)));
    var order := StableSort(TurnOrder(events), precedes);
    TurnOrderMembers(events);
    TurnOrderDistinct(events);
    RanksOrder(events);
    hide RankOf, TurnEvents, TurnOrder, StableSort, MayPrecede, Orders;
    SortMembers(TurnOrder(events), precedes);
    SortDistinct(TurnOrder(events), precedes);
    SortSorts(TurnOrder(events), precedes);
    forall i, j | 0 <= i < j < |order| ensures MayPrecede(events, order[i], order[j]) {
      assert order[i] in order && order[j] in order;
      RankSays(events, order[i], order[j]);
    }
  }

  function TurnsOf(events: seq<Event>, thread: string, order: seq<string>): seq<Turn> {
    if order == [] then []
    else TurnsOf(events, thread, order[..|order| - 1]) + [TurnOf(events, thread, order[|order| - 1])]
  }

  lemma {:induction false} TurnsOfIds(events: seq<Event>, thread: string, order: seq<string>)
    ensures var turns := TurnsOf(events, thread, order);
      |turns| == |order| && forall i | 0 <= i < |order| :: turns[i].id == order[i] && turns[i] == TurnOf(events, thread, order[i])
  {
    if order != [] {
      hide TurnStateOf, Items;
      TurnsOfIds(events, thread, order[..|order| - 1]);
    }
  }

  /** The timeline shows each turn with a record once, in an order of history places and then of first records. */
  lemma TurnsInOrder(events: seq<Event>, turns: seq<Turn>, thread: string)
    requires turns == TurnsOf(events, thread, SortedTurns(events))
    ensures forall i, j | 0 <= i < j < |turns| :: turns[i].id != turns[j].id && MayPrecede(events, turns[i].id, turns[j].id)
    ensures forall e | e in events && e.turnId.Some? && e.turnId.value != "" ::
      exists i :: 0 <= i < |turns| && turns[i].id == e.turnId.value
    ensures forall i | 0 <= i < |turns| :: Appears(events, turns[i].id) && turns[i] == TurnOf(events, thread, turns[i].id)
  {
    hide TurnsOf, SortedTurns, MayPrecede, TurnOf;
    var order := SortedTurns(events);
    TurnsOfIds(events, thread, order);
    SortedTurnsInOrder(events);
    forall i | 0 <= i < |turns| ensures Appears(events, turns[i].id) && turns[i] == TurnOf(events, thread, turns[i].id) {
      assert order[i] in order;
    }
    forall e | e in events && e.turnId.Some? && e.turnId.value != ""
      ensures exists i :: 0 <= i < |turns| && turns[i].id == e.turnId.value
    {
      assert e.InTurn(e.turnId.value) && e.turnId.value in order;
      var i :| 0 <= i < |order| && order[i] == e.turnId.value;
      assert turns[i].id == e.turnId.value;
    }
  }

  function SuggestionsOf(events: seq<Event>, order: seq<string>): seq<AliasLink> {
    if order == [] then []
    else SuggestionsOf(events, order[..|order| - 1]) + TurnStateOf(events, order[|order| - 1]).suggestions
  }

  // ----- the source's loops -----

  /** Building one turn, item by item. */
  method MaterializeTurn(events: seq<Event>, aliases: Aliases, turn: string) returns (ts: TurnState)
    ensures ts == TurnFold(NEW_TURN, events, aliases, turn)
  {
    var states: seq<ItemState>, bySource: map<SourceId, nat> := [], map[];
    var status, suggestions := "running", [];
    for index := 0 to |events|
      invariant TurnState(states, bySource, status, suggestions) == TurnFold(NEW_TURN, events[..index], aliases, turn)
    {
      var event := events[index];
      assert events[..index + 1][..index] == events[..index];
      ghost var before := TurnState(states, bySource, status, suggestions);
      if event.kind.Terminal() {
        status := if event.data.status != "" then event.data.status else TerminalName(event.kind);
        continue;
      }
      if UiTypeOf(event).None? {
        continue;
      }
      var ui, source, sourceId := UiTypeOf(event).value, event.source, ItemId(event);
      var state := FindOwn(TurnState(states, bySource, status, suggestions), ui, event);
      if state.None? {
        state := FindCross(TurnState(states, bySource, status, suggestions), ui, event);
        if state.Some? && sourceId != "" {
          suggestions := suggestions + [AliasLink(turn, states[state.value].target, Some(source), sourceId)];
        }
      }
      if state.Some? && sourceId != "" {
        states := states[state.value := states[state.value].(sourceIds := states[state.value].sourceIds[source := sourceId])];
        bySource := bySource[SourceId(source, sourceId) := state.value];
      }
      if state.None? {
        var made := Created(TurnState(states, bySource, status, suggestions), ui, event, aliases);
        state := Some(|states|);
        states, bySource := made.states, made.bySource;
      }
      assert (TurnState(states, bySource, status, suggestions), state.value) == Placed(before, ui, event, aliases, turn);
      states := states[state.value := Content(states[state.value], ui, event)];
    }
    assert events[..|events|] == events;
    ts := TurnState(states, bySource, status, suggestions);
  }

  method MaterializeTimeline(thread: string, events: seq<Event>) returns (turns: seq<Turn>, suggestions: seq<AliasLink>)
    ensures turns == TurnsOf(events, thread, SortedTurns(events))
    ensures suggestions == SuggestionsOf(events, SortedTurns(events))
    ensures forall i, j | 0 <= i < j < |turns| :: turns[i].id != turns[j].id && MayPrecede(events, turns[i].id, turns[j].id)
    ensures forall e | e in events && e.turnId.Some? && e.turnId.value != "" ::
      exists i :: 0 <= i < |turns| && turns[i].id == e.turnId.value
    ensures forall i | 0 <= i < |turns| :: Appears(events, turns[i].id) && turns[i] == TurnOf(events, thread, turns[i].id)
  {
    hide TurnFold, Items, StableSort, TurnEvents, TurnOrder, AliasesByTarget, RankOf, MayPrecede;
    var turnOrder, turnEvents, aliases := GroupTurns(events);
    var order := StableSort(turnOrder, (a: string, b: string) =>
      RankOf(TurnEvents(events, a)).Before(RankOf(TurnEvents(events, b))));
    assert order == SortedTurns(events);
    turns, suggestions := [], [];
    for index := 0 to |order|
      invariant turns == TurnsOf(events, thread, order[..index])
      invariant suggestions == SuggestionsOf(events, order[..index])
    {
      var turn := order[index];
      assert order[..index + 1][..index] == order[..index];
      var mine := if turn in turnEvents then turnEvents[turn] else [];
      var ts := MaterializeTurn(mine, aliases, turn);
      turns := turns + [Turn(turn, ts.status, Items(ts.states, thread, turn))];
      suggestions := suggestions + ts.suggestions;
    }
    assert order[..|order|] == order;
    TurnsInOrder(events, turns, thread);
  }

  /** The first loop: the records of each turn and the attached aliases. */
  method GroupTurns(events: seq<Event>)
    returns (turnOrder: seq<string>, turnEvents: map<string, seq<Event>>, aliases: Aliases)
    ensures turnOrder == TurnOrder(events)
    ensures aliases == AliasesByTarget(events)
    ensures forall t :: (if t in turnEvents then turnEvents[t] else []) == TurnEvents(events, t)
  {
    hide TurnOrder, AliasesByTarget, TurnEvents, Attach;
    turnOrder, turnEvents, aliases := [], map[], map[];
    NothingGrouped();
    for index := 0 to |events|
      invariant turnOrder == TurnOrder(events[..index])
      invariant aliases == AliasesByTarget(events[..index])
      invariant forall t :: (if t in turnEvents then turnEvents[t] else []) == TurnEvents(events[..index], t)
    {
      var event := events[index];
      GroupedSnoc(events, index);
      if event.kind == AliasAttached && event.data.alias.Some? {
        aliases := Attach(aliases, event.data.alias.value);
      }
      if event.turnId.Some? && event.turnId.value != "" {
        var turn := event.turnId.value;
        if turn !in turnOrder {
          turnOrder := turnOrder + [turn];
        }
        turnEvents := turnEvents[turn := (if turn in turnEvents then turnEvents[turn] else []) + [event]];
      }
    }
    assert events[..|events|] == events;
  }

  lemma NothingGrouped()
    ensures TurnOrder([]) == [] && AliasesByTarget([]) == map[]
    ensures forall t :: TurnEvents([], t) == []
  {
  }

  lemma GroupedSnoc(events: seq<Event>, i: nat)
    requires i < |events|
    ensures var e, turns := events[i], TurnOrder(events[..i]);
      TurnOrder(events[..i + 1])
      == if e.turnId.Some? && e.turnId.value != "" && e.turnId.value !in turns then turns + [e.turnId.value] else turns
    ensures var e, aliases := events[i], AliasesByTarget(events[..i]);
      AliasesByTarget(events[..i + 1])
      == if e.kind == AliasAttached && e.data.alias.Some? then Attach(aliases, e.data.alias.value) else aliases
    ensures forall t :: TurnEvents(events[..i + 1], t) == TurnEvents(events[..i], t) + if events[i].InTurn(t) then [events[i]] else []
  {
    assert events[..i + 1][..i] == events[..i];
  }
}
