/** What an import leaves in the journal: for each saved turn its start, its items in their order and its end. */
module HistoryRecords {
  import opened Records
  import opened Decimal
  import opened JournalFile
  import opened JournalWriter
  import opened HistoryImport
  import opened HistoryTheorems

  // ----- appends one after another -----

  /** The places of the requests whose key is new. */
  function Fresh(known: set<DedupKey>, requests: seq<Values>): (places: seq<nat>)
    ensures forall r :: r in places <==>
      && 0 <= r < |requests| && requests[r].dedupKey !in known
      && forall s | 0 <= s < r :: requests[s].dedupKey != requests[r].dedupKey
    ensures forall a, b | 0 <= a < b < |places| :: places[a] < places[b]
  {
    if requests == [] then []
    else
      var n := |requests| - 1;
      var last := requests[n];
      var earlier := Fresh(known, requests[..n]);
      assert forall a | 0 <= a < |earlier| :: earlier[a] in earlier;
      if last.dedupKey in known || exists s :: 0 <= s < n && requests[s].dedupKey == last.dedupKey then earlier
      else earlier + [n]
  }

  /** Some records hold the values asked for at some places. */
  ghost predicate HoldAt(records: seq<Event>, requests: seq<Values>, places: seq<nat>, thread: string) {
    && |records| == |places|
    && forall a | 0 <= a < |records| :: places[a] < |requests| && HoldsValues(records[a], thread, requests[places[a]])
  }

  lemma HoldMore(records: seq<Event>, requests: seq<Values>, places: seq<nat>, last: Values, thread: string)
    requires HoldAt(records, requests, places, thread)
    ensures HoldAt(records, requests + [last], places, thread)
    ensures forall e | HoldsValues(e, thread, last) ::
      HoldAt(records + [e], requests + [last], places + [|requests|], thread)
  {
  }

  lemma NextHolds(mid: Progress, thread: string, values: Values, env: Environment, now: int)
    ensures var events := AppendNext(mid, thread, values, env, now).log.events;
      if values.dedupKey in Keys(mid.log.events) then events == mid.log.events
      else events != [] && events == mid.log.events + [events[|events| - 1]]
           && HoldsValues(events[|events| - 1], thread, values)
  {
  }

  /** A run of appends adds one record for each new key, in the order of the requests. */
  lemma {:induction false} AppendAllHolds(p: Progress, thread: string, requests: seq<Values>, env: Environment, now: int)
    ensures var after := AppendAll(p, thread, requests, env, now).log.events;
      && p.log.events <= after
      && HoldAt(after[|p.log.events|..], requests, Fresh(Keys(p.log.events), requests), thread)
    decreases |requests|
  {
    if requests != [] {
      hide HoldAt, HoldsValues, AppendNext;
      var n := |requests| - 1;
      var front, last := requests[..n], requests[n];
      assert requests == front + [last];
      AppendAllHolds(p, thread, front, env, now);
      AppendAllExtends(p, thread, front, env, now);
      var known, mid := Keys(p.log.events), AppendAll(p, thread, front, env, now);
      var places := Fresh(known, front);
      NextHolds(mid, thread, last, env, now);
      HoldMore(mid.log.events[|p.log.events|..], front, places, last, thread);
      KnownKey(known, front, last, Keys(mid.log.events));
      var after := AppendNext(mid, thread, last, env, now).log.events;
      if last.dedupKey in Keys(mid.log.events) {
        assert Fresh(known, requests) == places;
      } else {
        assert Fresh(known, requests) == places + [n];
        assert after[|p.log.events|..] == mid.log.events[|p.log.events|..] + [after[|after| - 1]];
      }
    } else {
      NothingHolds(p.log.events, thread);
    }
  }

  lemma NothingHolds(events: seq<Event>, thread: string)
    ensures events[|events|..] == [] && Fresh(Keys(events), []) == [] && HoldAt([], [], [], thread)
  {
  }

  lemma KnownKey(known: set<DedupKey>, front: seq<Values>, last: Values, keys: set<DedupKey>)
    requires keys == known + RequestKeys(front)
    ensures last.dedupKey in keys <==>
      last.dedupKey in known || exists s :: 0 <= s < |front| && front[s].dedupKey == last.dedupKey
  {
    if last.dedupKey in RequestKeys(front) {
      var v :| v in front && v.dedupKey == last.dedupKey;
      var s :| 0 <= s < |front| && front[s] == v;
    }
  }

  // ----- what a saved turn's records say -----

  /** The id a saved turn is recorded under: its own, or one made from its place. */
  predicate Names(id: string, i: nat, turn: TurnEntry)
    requires turn.TurnEntry?
  {
    if turn.id != "" then id == turn.id else id == "history-turn-" + Numeral(i)
  }

  /** The record kind of each item type. */
  predicate KindFits(itemType: UiType, kind: Kind) {
    && (itemType == UserMessage ==> kind == UserMessageCompleted)
    && (itemType == AgentMessage ==> kind == AgentCompleted)
    && (itemType == Plan ==> kind == PlanUpdated)
    && (itemType == CommandExecution ==> kind == CommandCompleted)
    && (itemType == FileChange ==> kind == FileChangeCompleted)
    && (itemType == WebSearch ==> kind == WebSearchCompleted)
    && (itemType == McpToolCall || itemType == NamedTool("mcpTool") ==> kind == McpToolCompleted)
    && (itemType.NamedTool? && itemType.name != "mcpTool" ==> kind == ToolCompleted)
  }

  /** The names the item types go by. */
  predicate TypeNamed(itemType: UiType, name: string) {
    && (itemType == UserMessage ==> name == "userMessage")
    && (itemType == AgentMessage ==> name == "agentMessage")
    && (itemType == Plan ==> name == "plan")
    && (itemType == CommandExecution ==> name == "commandExecution")
    && (itemType == FileChange ==> name == "fileChange")
    && (itemType == WebSearch ==> name == "webSearch")
    && (itemType == McpToolCall ==> name == "mcpToolCall")
    && (itemType.NamedTool? ==> name == itemType.name)
  }

  /** How a status ends a turn; a running one does not. */
  predicate EndFits(status: string, kind: Kind) {
    && (status == "interrupted" || status == "cancelled" || status == "canceled" ==> kind == TurnInterrupted)
    && (status == "error" || status == "failed" ==> kind == TurnError)
    && (status !in {"interrupted", "cancelled", "canceled", "error", "failed"} ==> kind == TurnCompleted)
  }

  predicate IsRunning(turn: TurnEntry)
    requires turn.TurnEntry?
  {
    turn.status == "running" || turn.status == "in_progress" || turn.status == "active"
  }

  /** A record of the saved history of a turn. */
  predicate OfHistory(e: Event, thread: string, id: string) {
    e.source == CodexHistory && e.threadId == thread && e.turnId == Some(id)
  }

  predicate StartRecord(e: Event, thread: string, id: string, i: nat, turn: TurnEntry)
    requires turn.TurnEntry?
  {
    && OfHistory(e, thread, id) && e.kind == TurnStarted && e.itemId == None && !e.dedupKey.HistoryItemKey?
    && e.data.ordinal == Some(i) && e.data.status == "running" && e.data.rest == turn.details
  }

  /** The record of the item at a place of a turn: its own data and type, under its own id or one made for it. */
  ghost predicate ItemRecord(e: Event, thread: string, id: string, at: nat, item: HistoryItem)
    requires item.HistoryItem?
  {
    && OfHistory(e, thread, id) && e.dedupKey.HistoryItemKey? && e.dedupKey.ordinal == at
    && e.data == item.data && KindFits(item.itemType, e.kind)
    && (item.id != "" ==> e.itemId == Some(item.id))
    && (item.id == "" ==>
          exists name :: TypeNamed(item.itemType, name) && e.itemId == Some("history-" + name + "-" + Numeral(at)))
  }

  predicate EndRecord(e: Event, thread: string, id: string, turn: TurnEntry)
    requires turn.TurnEntry?
  {
    var status := if turn.status != "" then turn.status else "completed";
    && OfHistory(e, thread, id) && EndFits(status, e.kind) && e.itemId == None && !e.dedupKey.HistoryItemKey?
    && e.data.status == status && e.data.rest == turn.details
  }

  // ----- where each request comes from -----

  datatype Origin = Opening | StartOf(turn: nat) | ItemOf(turn: nat, at: nat) | EndOf(turn: nat) | Baseline

  /** The order of an import: turn by turn, and in each its start, its items by place, its end. */
  predicate Earlier(a: Origin, b: Origin) {
    if a.Opening? || b.Opening? then a.Opening? && !b.Opening?
    else if a.Baseline? || b.Baseline? then b.Baseline? && !a.Baseline?
    else
      || a.turn < b.turn
      || (a.turn == b.turn && ((a.StartOf? && !b.StartOf?) || (a.ItemOf? && b.ItemOf? && a.at < b.at) || (!a.EndOf? && b.EndOf?)))
  }

  ghost predicate Increasing(origins: seq<Origin>) {
    forall r, s | 0 <= r < s < |origins| :: Earlier(origins[r], origins[s])
  }

  lemma IncreasingConcat(left: seq<Origin>, right: seq<Origin>)
    requires Increasing(left) && Increasing(right) && forall a, b | a in left && b in right :: Earlier(a, b)
    ensures Increasing(left + right)
  {
    hide Earlier;
    var all := left + right;
    forall r, s | 0 <= r < s < |all| ensures Earlier(all[r], all[s]) {
      if r < |left| <= s {
        assert all[r] in left && all[s] in right;
      }
    }
  }

  predicate IsSaved(item: Option<HistoryItem>) {
    item.Some? && item.value.HistoryItem?
  }

  /** A place of the view whose turn is imported. */
  predicate Takes(view: ThreadView, skip: set<string>, i: nat) {
    && i < |view.turns| && view.turns[i].TurnEntry?
    && (if view.turns[i].id != "" then view.turns[i].id else "history-turn-" + Numeral(i)) !in skip
  }

  lemma TakesById(view: ThreadView, skip: set<string>, i: nat)
    ensures Takes(view, skip, i)
      <==> i < |view.turns| && view.turns[i].TurnEntry? && TurnId(i, view.turns[i]) !in skip
  {
  }

  /** An origin that a view has. */
  predicate Stands(o: Origin, view: ThreadView, skip: set<string>) {
    match o
    case StartOf(i) => Takes(view, skip, i)
    case ItemOf(i, k) => Takes(view, skip, i) && k < |view.turns[i].items| && IsSaved(view.turns[i].items[k])
    case EndOf(i) => Takes(view, skip, i) && !IsRunning(view.turns[i])
    case _ => true
  }

  /** A request that asks for the records of an origin. */
  ghost predicate AsksFor(v: Values, o: Origin, thread: string, view: ThreadView, skip: set<string>) {
    && Stands(o, view, skip)
    && match o
       case StartOf(i) =>
         v.dedupKey == TurnEdgeKey(thread, TurnId(i, view.turns[i]), TurnStarted)
         && forall e | HoldsValues(e, thread, v) :: StartRecord(e, thread, TurnId(i, view.turns[i]), i, view.turns[i])
       case ItemOf(i, k) =>
         v.dedupKey.HistoryItemKey? && v.dedupKey.turn == TurnId(i, view.turns[i]) && v.dedupKey.ordinal == k
         && forall e | HoldsValues(e, thread, v) ::
              ItemRecord(e, thread, TurnId(i, view.turns[i]), k, view.turns[i].items[k].value)
       case EndOf(i) =>
         v.dedupKey.TurnEdgeKey? && v.dedupKey.turn == TurnId(i, view.turns[i]) && v.dedupKey.edge.Terminal()
         && forall e | HoldsValues(e, thread, v) :: EndRecord(e, thread, TurnId(i, view.turns[i]), view.turns[i])
       case Opening =>
         && v.dedupKey == OpenedKey(thread) && v.kind == JournalOpened && v.source == CodexStream && v.turnId == None
         && v.itemId == None && v.eventType == "journal.opened" && v.methodName == "journal.opened" && v.data == NO_DATA
       case Baseline =>
         && v.dedupKey == BaselineKey(thread, view.watermark) && v.kind == BaselineImported && v.source == CodexHistory
         && v.turnId == None && v.data.watermark == Some(view.watermark)
  }

  function ItemOrigins(i: nat, items: seq<Option<HistoryItem>>): seq<Origin> {
    if items == [] then []
    else
      var n := |items| - 1;
      ItemOrigins(i, items[..n]) + if IsSaved(items[n]) then [ItemOf(i, n)] else []
  }

  function TurnOrigins(i: nat, turn: TurnEntry, skip: set<string>): seq<Origin> {
    if turn.NotATurn? || TurnId(i, turn) in skip then []
    else [StartOf(i)] + ItemOrigins(i, turn.items) + if IsRunning(turn) then [] else [EndOf(i)]
  }

  function AllTurnOrigins(turns: seq<TurnEntry>, skip: set<string>): seq<Origin> {
    if turns == [] then []
    else AllTurnOrigins(turns[..|turns| - 1], skip) + TurnOrigins(|turns| - 1, turns[|turns| - 1], skip)
  }

  function Origins(view: ThreadView, skip: set<string>): seq<Origin> {
    [Opening] + AllTurnOrigins(view.turns, skip) + [Baseline]
  }

  /** Each request asks for its origin's records. */
  ghost predicate AskFor(requests: seq<Values>, origins: seq<Origin>, thread: string, view: ThreadView, skip: set<string>) {
    && |requests| == |origins|
    && forall r | 0 <= r < |requests| :: AsksFor(requests[r], origins[r], thread, view, skip)
  }

  lemma AskForConcat(
      left: seq<Values>, right: seq<Values>, ours: seq<Origin>, theirs: seq<Origin>, thread: string, view: ThreadView, skip: set<string>)
    requires AskFor(left, ours, thread, view, skip) && AskFor(right, theirs, thread, view, skip)
    ensures AskFor(left + right, ours + theirs, thread, view, skip)
  {
    hide AsksFor;
  }

  lemma ItemAsks(thread: string, view: ThreadView, skip: set<string>, i: nat, k: nat)
    requires Stands(ItemOf(i, k), view, skip)
    ensures AsksFor(ItemValues(thread, TurnId(i, view.turns[i]), view.turns[i].items[k].value, k), ItemOf(i, k), thread, view, skip)
  {
    var itemType := view.turns[i].items[k].value.itemType;
    assert TypeNamed(itemType, TypeName(itemType));
  }

  lemma StartAsks(thread: string, view: ThreadView, skip: set<string>, i: nat)
    requires Takes(view, skip, i)
    ensures AsksFor(StartValues(thread, i, view.turns[i]), StartOf(i), thread, view, skip)
  {
  }

  lemma EndAsks(thread: string, view: ThreadView, skip: set<string>, i: nat)
    requires Takes(view, skip, i)
    ensures AskFor(EndRequests(thread, i, view.turns[i]), if IsRunning(view.turns[i]) then [] else [EndOf(i)], thread, view, skip)
  {
  }

  predicate IsItem(o: Origin, i: nat, items: seq<Option<HistoryItem>>) {
    o.ItemOf? && o.turn == i && o.at < |items| && IsSaved(items[o.at])
  }

  lemma {:induction false} ItemOriginsOf(i: nat, items: seq<Option<HistoryItem>>)
    ensures Increasing(ItemOrigins(i, items))
    ensures forall o :: o in ItemOrigins(i, items) <==> IsItem(o, i, items)
  {
    hide Increasing, Earlier, IsSaved;
    if items == [] {
      NothingIncreases();
    } else {
      var n := |items| - 1;
      var front := items[..n];
      ItemOriginsOf(i, front);
      LastEarlier(ItemOrigins(i, front), i, n);
      assert !IsSaved(items[n]) ==> ItemOrigins(i, items) == ItemOrigins(i, front);
      forall o ensures o in ItemOrigins(i, items) <==> IsItem(o, i, items) {
        assert o in ItemOrigins(i, front) <==> IsItem(o, i, front);
      }
    }
  }

  lemma NothingIncreases()
    ensures Increasing([])
  {
  }

  lemma {:induction false} ItemsAsk(thread: string, view: ThreadView, skip: set<string>, i: nat, n: nat)
    requires Takes(view, skip, i) && n <= |view.turns[i].items|
    ensures var items := view.turns[i].items[..n];
      AskFor(ItemRequests(thread, TurnId(i, view.turns[i]), items), ItemOrigins(i, items), thread, view, skip)
  {
    hide AsksFor, ItemValues, TurnId, AskFor;
    if n > 0 {
      var items, id := view.turns[i].items, TurnId(i, view.turns[i]);
      assert items[..n][..n - 1] == items[..n - 1];
      ItemsAsk(thread, view, skip, i, n - 1);
      if IsSaved(items[n - 1]) {
        ItemAsks(thread, view, skip, i, n - 1);
        OneAsks(ItemValues(thread, id, items[n - 1].value, n - 1), ItemOf(i, n - 1), thread, view, skip);
        AskForConcat(ItemRequests(thread, id, items[..n - 1]), [ItemValues(thread, id, items[n - 1].value, n - 1)],
                     ItemOrigins(i, items[..n - 1]), [ItemOf(i, n - 1)], thread, view, skip);
      } else {
        assert ItemRequests(thread, id, items[..n]) == ItemRequests(thread, id, items[..n - 1]);
        assert ItemOrigins(i, items[..n]) == ItemOrigins(i, items[..n - 1]);
      }
    } else {
      NothingAsked(thread, view, skip);
    }
  }

  lemma NothingAsked(thread: string, view: ThreadView, skip: set<string>)
    ensures AskFor([], [], thread, view, skip) && Increasing([])
  {
  }

  lemma OneAsks(v: Values, o: Origin, thread: string, view: ThreadView, skip: set<string>)
    requires AsksFor(v, o, thread, view, skip)
    ensures AskFor([v], [o], thread, view, skip)
  {
    hide AsksFor;
  }

  lemma LastEarlier(origins: seq<Origin>, i: nat, k: nat)
    requires Increasing(origins) && forall o | o in origins :: o.ItemOf? && o.turn == i && o.at < k
    ensures Increasing(origins + [ItemOf(i, k)])
  {
    assert Increasing([ItemOf(i, k)]);
    IncreasingConcat(origins, [ItemOf(i, k)]);
  }

  lemma TurnAsks(thread: string, view: ThreadView, skip: set<string>, i: nat)
    requires i < |view.turns|
    ensures var turn := view.turns[i];
      && AskFor(TurnRequests(thread, i, turn, skip), TurnOrigins(i, turn, skip), thread, view, skip)
      && Increasing(TurnOrigins(i, turn, skip))
      && forall o :: o in TurnOrigins(i, turn, skip)
           <==> (o.StartOf? || o.ItemOf? || o.EndOf?) && o.turn == i && Stands(o, view, skip)
  {
    hide AsksFor, ItemRequests, ItemOrigins, StartValues, EndRequests, TurnId;
    var turn := view.turns[i];
    TakesById(view, skip, i);
    if Takes(view, skip, i) {
      var items := ItemOrigins(i, turn.items);
      ItemsAsk(thread, view, skip, i, |turn.items|);
      ItemOriginsOf(i, turn.items);
      assert turn.items[..|turn.items|] == turn.items;
      StartAsks(thread, view, skip, i);
      EndAsks(thread, view, skip, i);
      var start, end := [StartOf(i)], if IsRunning(turn) then [] else [EndOf(i)];
      IncreasingConcat(start, items);
      IncreasingConcat(start + items, end);
      var requests := ItemRequests(thread, TurnId(i, turn), turn.items);
      AskForConcat([StartValues(thread, i, turn)], requests, start, items, thread, view, skip);
      AskForConcat([StartValues(thread, i, turn)] + requests, EndRequests(thread, i, turn), start + items, end, thread, view, skip);
    }
  }

  lemma LaterTurn(earlier: seq<Origin>, last: seq<Origin>, n: nat)
    requires Increasing(earlier) && Increasing(last)
    requires forall o | o in earlier :: (o.StartOf? || o.ItemOf? || o.EndOf?) && o.turn < n
    requires forall o | o in last :: (o.StartOf? || o.ItemOf? || o.EndOf?) && o.turn == n
    ensures Increasing(earlier + last)
  {
    IncreasingConcat(earlier, last);
  }

  lemma {:induction false} AllTurnsAsk(thread: string, view: ThreadView, skip: set<string>, n: nat)
    requires n <= |view.turns|
    ensures var turns := view.turns[..n];
      && AskFor(AllTurnRequests(thread, turns, skip), AllTurnOrigins(turns, skip), thread, view, skip)
      && Increasing(AllTurnOrigins(turns, skip))
      && forall o :: o in AllTurnOrigins(turns, skip)
           <==> (o.StartOf? || o.ItemOf? || o.EndOf?) && o.turn < n && Stands(o, view, skip)
  {
    hide AsksFor, AskFor, TurnRequests, TurnOrigins, Stands, Increasing;
    if n > 0 {
      assert view.turns[..n][..n - 1] == view.turns[..n - 1];
      AllTurnsAsk(thread, view, skip, n - 1);
      TurnAsks(thread, view, skip, n - 1);
      var earlier, last := AllTurnOrigins(view.turns[..n - 1], skip), TurnOrigins(n - 1, view.turns[n - 1], skip);
      LaterTurn(earlier, last, n - 1);
      AskForConcat(AllTurnRequests(thread, view.turns[..n - 1], skip), TurnRequests(thread, n - 1, view.turns[n - 1], skip),
                   earlier, last, thread, view, skip);
      assert AllTurnOrigins(view.turns[..n], skip) == earlier + last;
    } else {
      NothingAsked(thread, view, skip);
    }
  }

  /** An import asks, in order, for exactly the records that the view has. */
  lemma ImportAsks(thread: string, view: ThreadView, skip: set<string>)
    ensures AskFor(ImportRequests(thread, view, skip), Origins(view, skip), thread, view, skip)
    ensures Increasing(Origins(view, skip))
    ensures forall o :: o in Origins(view, skip) <==> Stands(o, view, skip)
  {
    hide AllTurnRequests, AllTurnOrigins;
    var turns, origins := AllTurnRequests(thread, view.turns, skip), AllTurnOrigins(view.turns, skip);
    AllTurnsAsk(thread, view, skip, |view.turns|);
    assert view.turns[..|view.turns|] == view.turns;
    IncreasingConcat([Opening], origins);
    IncreasingConcat([Opening] + origins, [Baseline]);
    AskForConcat([OpenedValues(thread)], turns, [Opening], origins, thread, view, skip);
    AskForConcat([OpenedValues(thread)] + turns, [BaselineValues(thread, view.watermark)], [Opening] + origins, [Baseline],
                 thread, view, skip);
  }

  // ----- the records of an import -----

  /** The record of an origin, told by the fields of the saved view. */
  ghost predicate RecordOf(e: Event, o: Origin, thread: string, view: ThreadView, skip: set<string>) {
    && Stands(o, view, skip) && e.threadId == thread
    && match o
       case StartOf(i) => exists id :: Names(id, i, view.turns[i]) && StartRecord(e, thread, id, i, view.turns[i])
       case ItemOf(i, k) =>
         exists id :: Names(id, i, view.turns[i]) && ItemRecord(e, thread, id, k, view.turns[i].items[k].value)
       case EndOf(i) => exists id :: Names(id, i, view.turns[i]) && EndRecord(e, thread, id, view.turns[i])
       case Opening =>
         && e.kind == JournalOpened && e.source == CodexStream && e.turnId == None && e.itemId == None
         && e.eventType == "journal.opened" && e.methodName == "journal.opened" && e.data == NO_DATA
       case Baseline =>
         e.kind == BaselineImported && e.source == CodexHistory && e.turnId == None && e.data.watermark == Some(view.watermark)
  }

  /** No record of the journal holds any of the saved history of a turn. */
  ghost predicate Untouched(events: seq<Event>, id: string) {
    forall e | e in events :: (e.dedupKey.TurnEdgeKey? || e.dedupKey.HistoryItemKey?) ==> e.dedupKey.turn != id
  }

  /** Nothing of an origin is recorded yet, and no earlier place of the view has its turn's id. */
  ghost predicate IsNew(before: seq<Event>, o: Origin, thread: string, view: ThreadView, skip: set<string>)
    requires Stands(o, view, skip)
  {
    match o
    case Opening => OpenedKey(thread) !in Keys(before)
    case Baseline => BaselineKey(thread, view.watermark) !in Keys(before)
    case _ =>
      forall id | Names(id, o.turn, view.turns[o.turn]) ::
        && Untouched(before, id)
        && forall j: nat | j < o.turn && view.turns[j].TurnEntry? :: !Names(id, j, view.turns[j])
  }

  /** The added records are those of some origins of the view, in the view's order, and none that is new is missing. */
  ghost predicate RecordsOf(
      before: seq<Event>, added: seq<Event>, origins: seq<Origin>, thread: string, view: ThreadView, skip: set<string>)
  {
    && |added| == |origins|
    && Increasing(origins)
    && (forall a | 0 <= a < |added| :: RecordOf(added[a], origins[a], thread, view, skip))
    && (forall o | Stands(o, view, skip) :: IsNew(before, o, thread, view, skip) ==> o in origins)
  }

  /** What importing a view adds to a journal. */
  ghost predicate Imports(before: seq<Event>, added: seq<Event>, thread: string, view: ThreadView, skip: set<string>) {
    exists origins :: RecordsOf(before, added, origins, thread, view, skip)
  }

  lemma AskedRecord(e: Event, v: Values, o: Origin, thread: string, view: ThreadView, skip: set<string>)
    requires AsksFor(v, o, thread, view, skip) && HoldsValues(e, thread, v)
    ensures RecordOf(e, o, thread, view, skip)
  {
    if o.StartOf? || o.ItemOf? || o.EndOf? {
      assert Names(TurnId(o.turn, view.turns[o.turn]), o.turn, view.turns[o.turn]);
    }
  }

  lemma NewKey(before: seq<Event>, v: Values, o: Origin, thread: string, view: ThreadView, skip: set<string>)
    requires AsksFor(v, o, thread, view, skip) && IsNew(before, o, thread, view, skip)
    ensures v.dedupKey !in Keys(before)
  {
    if o.StartOf? || o.ItemOf? || o.EndOf? {
      assert Names(TurnId(o.turn, view.turns[o.turn]), o.turn, view.turns[o.turn]);
    }
  }

  lemma EarlierKey(
      before: seq<Event>, v: Values, o: Origin, w: Values, other: Origin, thread: string, view: ThreadView, skip: set<string>)
    requires AsksFor(v, o, thread, view, skip) && IsNew(before, o, thread, view, skip)
    requires AsksFor(w, other, thread, view, skip) && Earlier(other, o)
    ensures v.dedupKey != w.dedupKey
  {
    if o.StartOf? || o.ItemOf? || o.EndOf? {
      var id := TurnId(o.turn, view.turns[o.turn]);
      assert Names(id, o.turn, view.turns[o.turn]);
      if other.StartOf? || other.ItemOf? || other.EndOf? {
        assert Names(TurnId(other.turn, view.turns[other.turn]), other.turn, view.turns[other.turn]);
      }
    }
  }

  /** The origins of the requests at increasing places are in order. */
  lemma TakenIncrease(origins: seq<Origin>, places: seq<nat>, taken: seq<Origin>)
    requires Increasing(origins) && |taken| == |places|
    requires forall a | 0 <= a < |places| :: places[a] < |origins| && taken[a] == origins[places[a]]
    requires forall a, b | 0 <= a < b < |places| :: places[a] < places[b]
    ensures Increasing(taken)
  {
    hide Earlier;
  }

  /** The place of a new origin's request is one whose record is added. */
  lemma NewIsTaken(
      before: seq<Event>, requests: seq<Values>, origins: seq<Origin>, r: nat, thread: string, view: ThreadView, skip: set<string>)
    requires AskFor(requests, origins, thread, view, skip) && Increasing(origins) && r < |origins|
    requires Stands(origins[r], view, skip) && IsNew(before, origins[r], thread, view, skip)
    ensures r in Fresh(Keys(before), requests)
  {
    hide AsksFor, IsNew, Stands, Earlier, Keys;
    NewKey(before, requests[r], origins[r], thread, view, skip);
    forall s | 0 <= s < r ensures requests[s].dedupKey != requests[r].dedupKey {
      EarlierKey(before, requests[r], origins[r], requests[s], origins[s], thread, view, skip);
    }
  }

  /** An import adds, in the view's order, exactly the records of the saved turns, items and ends that are new. */
  lemma ImportRecords(p: Progress, thread: string, view: ThreadView, skip: set<string>, env: Environment, now: int)
    ensures var after := AppendAll(p, thread, ImportRequests(thread, view, skip), env, now).log.events;
      p.log.events <= after && Imports(p.log.events, after[|p.log.events|..], thread, view, skip)
  {
    hide AsksFor, HoldsValues, RecordOf, IsNew, Stands, ImportRequests, Origins, Increasing, AppendAll, Keys;
    var requests, origins, before := ImportRequests(thread, view, skip), Origins(view, skip), p.log.events;
    AppendAllHolds(p, thread, requests, env, now);
    ImportAsks(thread, view, skip);
    var places := Fresh(Keys(before), requests);
    var added := AppendAll(p, thread, requests, env, now).log.events[|before|..];
    assert forall a | 0 <= a < |places| :: places[a] in places;
    var taken := seq(|places|, a requires 0 <= a < |places| => origins[places[a]]);
    TakenIncrease(origins, places, taken);
    forall a | 0 <= a < |added| ensures RecordOf(added[a], taken[a], thread, view, skip) {
      AskedRecord(added[a], requests[places[a]], origins[places[a]], thread, view, skip);
    }
    forall o | Stands(o, view, skip) && IsNew(before, o, thread, view, skip) ensures o in taken {
      var r: nat :| r < |origins| && origins[r] == o;
      NewIsTaken(before, requests, origins, r, thread, view, skip);
      var a :| 0 <= a < |places| && places[a] == r;
      assert taken[a] == o;
    }
    assert RecordsOf(before, added, taken, thread, view, skip);
  }
}
