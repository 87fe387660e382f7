/** `append_history`: importing a thread's saved turns into its journal. */
module HistoryImport {
  import opened Records
  import opened JournalFile
  import opened JournalWriter
  import opened Decimal

  /** A saved item, reduced to the fields the journal keeps; reasoning and hook prompts are private. */
  datatype HistoryItem = PrivateItem | HistoryItem(id: string, itemType: UiType, data: Data)

  /** Entries that are not objects are skipped. An empty id or status stands for a missing one. */
  datatype TurnEntry = NotATurn | TurnEntry(id: string, status: string, items: seq<Option<HistoryItem>>, details: map<string, string>)

  datatype ThreadView = ThreadView(turns: seq<TurnEntry>, watermark: Watermark)

  function TurnId(index: nat, turn: TurnEntry): (id: string)
    requires turn.TurnEntry?
    ensures id != ""
  {
    if turn.id != "" then turn.id else "history-turn-" + Numeral(index)
  }

  function StatusOf(turn: TurnEntry): string
    requires turn.TurnEntry?
  {
    if turn.status != "" then turn.status else "completed"
  }

  function TerminalKind(status: string): (k: Option<Kind>)
    ensures k.Some? ==> k.value.Terminal()
  {
    if status in {"interrupted", "cancelled", "canceled"} then Some(TurnInterrupted)
    else if status in {"error", "failed"} then Some(TurnError)
    else if status !in {"running", "in_progress", "active"} then Some(TurnCompleted)
    else None
  }

  predicate Finished(view: ThreadView) {
    forall turn | turn in view.turns && turn.TurnEntry? :: TerminalKind(StatusOf(turn)).Some?
  }

  function CompletedKind(itemType: UiType): (k: Kind)
    ensures k != OtherKind("") && !k.Terminal() && k != TurnStarted && k != JournalOpened
  {
    match itemType
    case UserMessage => UserMessageCompleted
    case AgentMessage => AgentCompleted
    case Plan => PlanUpdated
    case CommandExecution => CommandCompleted
    case FileChange => FileChangeCompleted
    case WebSearch => WebSearchCompleted
    case McpToolCall => McpToolCompleted
    case NamedTool(name) => if name == "mcpTool" then McpToolCompleted else ToolCompleted
  }

  function TypeName(itemType: UiType): string {
    match itemType
    case UserMessage => "userMessage"
    case AgentMessage => "agentMessage"
    case Plan => "plan"
    case CommandExecution => "commandExecution"
    case FileChange => "fileChange"
    case WebSearch => "webSearch"
    case McpToolCall => "mcpToolCall"
    case NamedTool(name) => name
  }

  function OpenedValues(thread: string): Values {
    Values(OpenedKey(thread), JournalOpened, "journal.opened", "journal.opened", CodexStream, None, None, NO_DATA)
  }

  function StartValues(thread: string, index: nat, turn: TurnEntry): Values
    requires turn.TurnEntry?
  {
    var id := TurnId(index, turn);
    Values(TurnEdgeKey(thread, id, TurnStarted), TurnStarted, "codex.history", "history/turn/started", CodexHistory,
           Some(id), None, NO_DATA.(status := "running", ordinal := Some(index), rest := turn.details))
  }

  function ItemValues(thread: string, turn: string, item: HistoryItem, ordinal: nat): Values
    requires item.HistoryItem?
  {
    var kind := CompletedKind(item.itemType);
    var id := if item.id != "" then item.id else "history-" + TypeName(item.itemType) + "-" + Numeral(ordinal);
    Values(HistoryItemKey(thread, turn, ordinal, kind, item.data), kind, "codex.history", "history/item", CodexHistory,
           Some(turn), Some(id), item.data)
  }

  function EndValues(thread: string, turn: string, kind: Kind, status: string, details: map<string, string>): Values {
    Values(TurnEdgeKey(thread, turn, kind), kind, "codex.history", "history/turn/completed", CodexHistory,
           Some(turn), None, NO_DATA.(status := status, rest := details))
  }

  function BaselineValues(thread: string, watermark: Watermark): Values {
    Values(BaselineKey(thread, watermark), BaselineImported, "codex.history", "history/baseline/imported", CodexHistory,
           None, None, NO_DATA.(watermark := Some(watermark)))
  }

  function ItemRequests(thread: string, turn: string, items: seq<Option<HistoryItem>>): seq<Values> {
    if items == [] then []
    else
      var n := |items| - 1;
      var last := items[n];
      ItemRequests(thread, turn, items[..n])
        + if last.Some? && last.value.HistoryItem? then [ItemValues(thread, turn, last.value, n)] else []
  }

  function EndRequests(thread: string, index: nat, turn: TurnEntry): seq<Values>
    requires turn.TurnEntry?
  {
    match TerminalKind(StatusOf(turn))
    case None => []
    case Some(kind) => [EndValues(thread, TurnId(index, turn), kind, StatusOf(turn), turn.details)]
  }

  /** What one turn asks the journal to hold. */
  function TurnRequests(thread: string, index: nat, turn: TurnEntry, skip: set<string>): seq<Values> {
    if turn.NotATurn? || TurnId(index, turn) in skip then []
    else
      [StartValues(thread, index, turn)]
        + ItemRequests(thread, TurnId(index, turn), turn.items)
        + EndRequests(thread, index, turn)
  }

  lemma TurnRequestsParts(thread: string, index: nat, turn: TurnEntry, skip: set<string>)
    requires turn.TurnEntry? && TurnId(index, turn) !in skip
    ensures TurnRequests(thread, index, turn, skip)
      == [StartValues(thread, index, turn)] + ItemRequests(thread, TurnId(index, turn), turn.items) + EndRequests(thread, index, turn)
  {
  }

  lemma TurnRequestsNone(thread: string, index: nat, turn: TurnEntry, skip: set<string>)
    requires turn.NotATurn? || TurnId(index, turn) in skip
    ensures TurnRequests(thread, index, turn, skip) == []
  {
  }

  function AllTurnRequests(thread: string, turns: seq<TurnEntry>, skip: set<string>): seq<Values> {
    if turns == [] then []
    else
      var n := |turns| - 1;
      AllTurnRequests(thread, turns[..n], skip) + TurnRequests(thread, n, turns[n], skip)
  }

  lemma AllTurnRequestsSnoc(thread: string, turns: seq<TurnEntry>, i: nat, skip: set<string>)
    requires i < |turns|
    ensures AllTurnRequests(thread, turns[..i + 1], skip)
      == AllTurnRequests(thread, turns[..i], skip) + TurnRequests(thread, i, turns[i], skip)
  {
    assert turns[..i + 1][..i] == turns[..i];
  }

  lemma AllTurnRequestsNone(thread: string, skip: set<string>)
    ensures AllTurnRequests(thread, [], skip) == []
  {
  }

  /** The whole import, in order. */
  function ImportRequests(thread: string, view: ThreadView, skip: set<string>): seq<Values> {
    [OpenedValues(thread)] + AllTurnRequests(thread, view.turns, skip) + [BaselineValues(thread, view.watermark)]
  }

  // ----- aliases -----

  function AliasValues(alias: AliasLink): Values
    requires alias.source.Some?
  {
    Values(AliasKey(alias.turnId, alias.target, alias.source.value, alias.sourceId), AliasAttached, "journal.alias",
           "journal/item/aliasAttached", CodexHistory, Some(alias.turnId), Some(alias.sourceId),
           NO_DATA.(alias := Some(alias)))
  }

  function AliasRequests(aliases: seq<AliasLink>): seq<Values>
    requires forall a | a in aliases :: a.source.Some?
  {
    if aliases == [] then []
    else AliasRequests(aliases[..|aliases| - 1]) + [AliasValues(aliases[|aliases| - 1])]
  }

  // ----- turns whose live stream is whole -----

  predicate LiveBoundary(e: Event, turn: string, end: bool) {
    e.source == CodexStream && e.InTurn(turn) && IsBoundary(e.kind, end)
  }

  ghost predicate LiveClosed(events: seq<Event>, turn: string) {
    && (exists e :: e in events && LiveBoundary(e, turn, false))
    && (exists e :: e in events && LiveBoundary(e, turn, true))
  }

  /** The turns with both live boundaries. */
  function CompleteTurns(events: seq<Event>): (turns: set<string>)
    ensures forall t :: t in turns <==> LiveClosed(events, t)
  {
    var started := set e | e in events && NamesTurn(e) && LiveBoundary(e, e.turnId.value, false) :: e.turnId.value;
    var ended := set e | e in events && NamesTurn(e) && LiveBoundary(e, e.turnId.value, true) :: e.turnId.value;
    assert forall e, t | e in events && LiveBoundary(e, t, false) :: t in started;
    assert forall e, t | e in events && LiveBoundary(e, t, true) :: t in ended;
    started * ended
  }

  ghost predicate LiveKind(events: seq<Event>, turn: string, kind: Kind) {
    exists e :: e in events && e.source == CodexStream && e.InTurn(turn) && e.kind == kind
  }

  lemma LiveKindSnoc(events: seq<Event>, last: Event, turn: string, kind: Kind)
    ensures LiveKind(events + [last], turn, kind)
      <==> LiveKind(events, turn, kind) || (last.source == CodexStream && last.InTurn(turn) && last.kind == kind)
  {
  }

  predicate Holds(kinds: map<string, set<Kind>>, turn: string, kind: Kind) {
    turn in kinds && kind in kinds[turn]
  }

  /** `complete_stream_turn_ids`, as the source's loop over a map of kind sets. */
  method CompleteStreamTurnIds(events: seq<Event>) returns (complete: set<string>)
    ensures complete == CompleteTurns(events)
  {
    var kindsByTurn: map<string, set<Kind>> := map[];
    for i := 0 to |events|
      invariant forall t, k :: Holds(kindsByTurn, t, k) <==> LiveKind(events[..i], t, k)
    {
      ghost var before := kindsByTurn;
      var event := events[i];
      assert events[..i + 1] == events[..i] + [event];
      if event.source == CodexStream && NamesTurn(event) {
        var t := event.turnId.value;
        kindsByTurn := kindsByTurn[t := (if t in kindsByTurn then kindsByTurn[t] else {}) + {event.kind}];
      }
      forall t, k ensures Holds(kindsByTurn, t, k) <==> LiveKind(events[..i + 1], t, k) {
        LiveKindSnoc(events[..i], event, t, k);
        assert Holds(before, t, k) <==> LiveKind(events[..i], t, k);
      }
    }
    assert events[..|events|] == events;
    complete := set t | t in kindsByTurn && TurnStarted in kindsByTurn[t]
                        && exists k :: k in kindsByTurn[t] && k.Terminal();
    forall t ensures t in complete <==> LiveClosed(events, t) {
      if LiveClosed(events, t) {
        var s :| s in events && LiveBoundary(s, t, false);
        var e :| e in events && LiveBoundary(e, t, true);
        assert LiveKind(events, t, s.kind) && LiveKind(events, t, e.kind);
        assert Holds(kindsByTurn, t, s.kind) && Holds(kindsByTurn, t, e.kind);
      }
      if t in complete {
        var k :| k in kindsByTurn[t] && k.Terminal();
        assert Holds(kindsByTurn, t, TurnStarted) && Holds(kindsByTurn, t, k);
        var s :| s in events && s.source == CodexStream && s.InTurn(t) && s.kind == TurnStarted;
        var e :| e in events && e.source == CodexStream && e.InTurn(t) && e.kind == k;
        assert LiveBoundary(s, t, false) && LiveBoundary(e, t, true);
      }
    }
  }

  /** The turns an import leaves to the live stream. */
  function Skipped(log: Scan): (turns: set<string>)
    ensures forall t :: t in turns <==> !log.damaged && LiveClosed(log.events, t)
  {
    if log.damaged then {} else CompleteTurns(log.events)
  }

  /** One import of a view, from the journal as it stands. */
  function Import(p: Progress, thread: string, view: ThreadView, env: Environment, now: int): Progress {
    AppendAll(p, thread, ImportRequests(thread, view, Skipped(p.log)), env, now)
  }

  /** An import that stops after its first `count` requests. */
  function ImportStopped(p: Progress, thread: string, view: ThreadView, count: nat, env: Environment, now: int): Progress {
    var requests := ImportRequests(thread, view, Skipped(p.log));
    AppendAll(p, thread, if count <= |requests| then requests[..count] else requests, env, now)
  }
}
