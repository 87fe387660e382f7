/** The journal's value types, and a few notions that many modules share. */
module Records {

  datatype Option<+T> = None | Some(value: T)
  {
    function GetOr(fallback: T): T {
      if Some? then value else fallback
    }
  }

  type Byte = b: int | 0 <= b < 256

  const NEWLINE: Byte := 10

  predicate Distinct<T(==)>(xs: seq<T>) {
    forall i, j | 0 <= i < j < |xs| :: xs[i] != xs[j]
  }

  datatype Source = CodexStream | CodexHistory | OtherSource(name: string)

  datatype Kind =
    | JournalOpened
    | TurnStarted
    | TurnCompleted
    | TurnError
    | TurnInterrupted
    | UserMessageCompleted
    | AgentDelta
    | AgentCheckpoint
    | AgentCompleted
    | PlanUpdated
    | CommandStarted
    | CommandCompleted
    | FileChangeCompleted
    | WebSearchCompleted
    | McpToolCompleted
    | ToolStarted
    | ToolCompleted
    | AliasAttached
    | BaselineImported
    | OtherKind(name: string)
  {
    predicate Terminal() {
      TurnCompleted? || TurnError? || TurnInterrupted?
    }
  }

  /** The item types the console renders; `NamedTool` stands for every other type string. */
  datatype UiType =
    | UserMessage
    | AgentMessage
    | Plan
    | CommandExecution
    | FileChange
    | WebSearch
    | McpToolCall
    | NamedTool(name: string)
  {
    predicate IsMessage() {
      UserMessage? || AgentMessage? || Plan?
    }
  }

  /** A tool item: its id, its type and every other field. */
  datatype Payload = Payload(id: string, itemType: Option<UiType>, rest: map<string, string>)

  /** One alias record's body; an empty string stands for a missing field. */
  datatype AliasLink = AliasLink(turnId: string, target: string, source: Option<Source>, sourceId: string)

  datatype Watermark = Watermark(updatedAt: string, turnCount: nat, fingerprint: string)

  /** The `data` object; empty text, no item and so on stand for absent keys. */
  datatype Data = Data(
    text: string,
    delta: string,
    item: Option<Payload>,
    attachments: seq<string>,
    attachmentsUnavailable: bool,
    ordinal: Option<int>,
    status: string,
    alias: Option<AliasLink>,
    watermark: Option<Watermark>,
    rest: map<string, string>)

  const NO_DATA := Data("", "", None, [], false, None, "", None, None, map[])

  /** Dedup keys by what they are built from; distinct parts give distinct key strings. */
  datatype DedupKey =
    | OpenedKey(thread: string)
    | TurnEdgeKey(thread: string, turn: string, edge: Kind)
    | HistoryItemKey(thread: string, turn: string, ordinal: nat, kind: Kind, content: Data)
    | BaselineKey(thread: string, watermark: Watermark)
    | AliasKey(turn: string, target: string, source: Source, sourceId: string)
    | LiveKey(key: string)

  /** A persisted record. */
  datatype Event = Event(
    sequence: nat,
    eventId: string,
    dedupKey: DedupKey,
    kind: Kind,
    eventType: string,
    methodName: string,
    source: Source,
    threadId: string,
    turnId: Option<string>,
    itemId: Option<string>,
    at: string,
    data: Data)
  {
    predicate InTurn(turn: string) {
      turnId == Some(turn) && turn != ""
    }
  }

  /** What a caller hands to `append`: a record without its sequence, event id and time. */
  datatype Values = Values(
    dedupKey: DedupKey,
    kind: Kind,
    eventType: string,
    methodName: string,
    source: Source,
    turnId: Option<string>,
    itemId: Option<string>,
    data: Data)
  {
    /** The checks of `_validate_values` that the types leave open. */
    predicate Valid() {
      !source.OtherSource? && kind != OtherKind("")
    }

    function Record(threadId: string, sequence: nat, eventId: string, at: string): Event {
      Event(sequence, eventId, dedupKey, kind, eventType, methodName, source, threadId, turnId, itemId, at, data)
    }
  }

  /** A record of a thread that holds what a caller handed in, field by field. */
  predicate HoldsValues(e: Event, threadId: string, v: Values) {
    && e.dedupKey == v.dedupKey && e.kind == v.kind && e.eventType == v.eventType && e.methodName == v.methodName
    && e.source == v.source && e.threadId == threadId && e.turnId == v.turnId && e.itemId == v.itemId && e.data == v.data
  }

  /** The records of one turn, in journal order. */
  function TurnEvents(events: seq<Event>, turn: string): seq<Event> {
    if events == [] then []
    else
      var last := events[|events| - 1];
      TurnEvents(events[..|events| - 1], turn) + if last.InTurn(turn) then [last] else []
  }

  function Keys(events: seq<Event>): set<DedupKey> {
    set e | e in events :: e.dedupKey
  }

  function EventIds(events: seq<Event>): set<string> {
    set e | e in events :: e.eventId
  }

  /** Sequences strictly increase, and no event id or dedup key is used twice. */
  ghost predicate Ordered(events: seq<Event>) {
    forall i, j | 0 <= i < j < |events| ::
      && events[i].sequence < events[j].sequence
      && events[i].eventId != events[j].eventId
      && events[i].dedupKey != events[j].dedupKey
  }

  lemma {:induction false} TurnEventsConcat(left: seq<Event>, right: seq<Event>, turn: string)
    ensures TurnEvents(left + right, turn) == TurnEvents(left, turn) + TurnEvents(right, turn)
    decreases |right|
  {
    if right == [] {
      assert left + right == left;
    } else {
      var n := |right| - 1;
      assert (left + right)[..|left + right| - 1] == left + right[..n];
      TurnEventsConcat(left, right[..n], turn);
    }
  }

  lemma {:induction false} TurnEventsMembers(events: seq<Event>, turn: string)
    ensures forall e :: e in TurnEvents(events, turn) <==> e in events && e.InTurn(turn)
  {
    if events != [] {
      var n := |events| - 1;
      TurnEventsMembers(events[..n], turn);
      assert events == events[..n] + [events[n]];
    }
  }

  lemma {:induction false} TurnEventsOrdered(events: seq<Event>, turn: string)
    requires Ordered(events)
    ensures Ordered(TurnEvents(events, turn))
  {
    if events != [] {
      var n := |events| - 1;
      TurnEventsOrdered(events[..n], turn);
      TurnEventsMembers(events[..n], turn);
      var front := TurnEvents(events[..n], turn);
      forall e | e in front
        ensures e.sequence < events[n].sequence && e.eventId != events[n].eventId && e.dedupKey != events[n].dedupKey
      {
        var i :| 0 <= i < n && events[i] == e;
      }
    }
  }
}
