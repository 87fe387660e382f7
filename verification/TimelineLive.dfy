/** A turn of live events: one item per id, and each item is the fold of that id's own events. */
module TimelineLive {
  import opened Records
  import opened Timeline
  import opened TimelineTheorems

  /** Item events come from the live stream, carry an id and no attachments; aliases name history ids only. */
  ghost predicate LiveEvent(e: Event, aliases: Aliases) {
    && (UiTypeOf(e).Some? ==> e.source == CodexStream && ItemId(e) != "" && !HasAttachments(e.data))
    && (e.eventId in aliases ==> aliases[e.eventId].Keys <= {CodexHistory})
  }

  /** The item ids by first appearance. */
  function FirstIds(events: seq<Event>): seq<string> {
    if events == [] then []
    else
      var last := events[|events| - 1];
      var earlier := FirstIds(events[..|events| - 1]);
      if UiTypeOf(last).Some? && ItemId(last) !in earlier then earlier + [ItemId(last)] else earlier
  }

  /** The item events of one id. */
  function Own(events: seq<Event>, id: string): seq<Event> {
    if events == [] then []
    else
      var last := events[|events| - 1];
      Own(events[..|events| - 1], id) + if UiTypeOf(last).Some? && ItemId(last) == id then [last] else []
  }

  /** The text of a run of events: a delta appends, a checkpoint or completed message replaces. */
  function TextFold(events: seq<Event>): string {
    if events == [] then ""
    else
      var last, text := events[|events| - 1], TextFold(events[..|events| - 1]);
      if last.kind == AgentDelta then text + last.data.delta
      else if UiTypeOf(last).Some? && UiTypeOf(last).value.IsMessage() then
        if last.data.text != "" then last.data.text else last.data.delta
      else text
  }

  /** The tool payload of a run of events: the last one given. */
  function PayloadFold(events: seq<Event>): Option<Payload> {
    if events == [] then None
    else
      var last, payload := events[|events| - 1], PayloadFold(events[..|events| - 1]);
      if UiTypeOf(last).Some? && !UiTypeOf(last).value.IsMessage() && last.data.item.Some? then last.data.item else payload
  }

  /** The item of one id. */
  function OwnItem(own: seq<Event>, id: string, aliases: Aliases): ItemState
    requires own != [] && UiTypeOf(own[0]).Some?
  {
    ItemState(own[0].eventId,
              if own[0].eventId in aliases then map[CodexStream := id] + aliases[own[0].eventId] else map[CodexStream := id],
              UiTypeOf(own[0]).value, own[0].sequence, TextFold(own), PayloadFold(own), false, [], false)
  }

  ghost predicate IsOwnItem(s: ItemState, own: seq<Event>, id: string, aliases: Aliases) {
    own != [] && UiTypeOf(own[0]).Some? && s == OwnItem(own, id, aliases)
  }

  ghost predicate LiveShape(ts: TurnState, events: seq<Event>, aliases: Aliases) {
    var ids := FirstIds(events);
    && Distinct(ids) && |ts.states| == |ids| && ts.suggestions == []
    && (forall i | 0 <= i < |ids| :: IsOwnItem(ts.states[i], Own(events, ids[i]), ids[i], aliases))
    && StreamIndex(ts.bySource, ids)
  }

  lemma {:induction false} NoCrossMatches(states: seq<ItemState>, ui: UiType, e: Event)
    requires forall s | s in states :: !CrossMatch(s, ui, e)
    ensures CrossMatches(states, ui, e) == []
  {
    if states != [] {
      NoCrossMatches(states[..|states| - 1], ui, e);
    }
  }

  lemma {:induction false} OwnFacts(events: seq<Event>, id: string)
    ensures Own(events, id) != [] <==> id in FirstIds(events)
    ensures forall e | e in Own(events, id) :: e in events && UiTypeOf(e).Some? && ItemId(e) == id
  {
    if events != [] {
      OwnFacts(events[..|events| - 1], id);
    }
  }

  lemma OwnSnoc(events: seq<Event>, e: Event, id: string)
    ensures Own(events + [e], id) == Own(events, id) + if UiTypeOf(e).Some? && ItemId(e) == id then [e] else []
    ensures FirstIds(events + [e])
      == FirstIds(events) + if UiTypeOf(e).Some? && ItemId(e) !in FirstIds(events) then [ItemId(e)] else []
  {
  }

  lemma OwnOther(events: seq<Event>, e: Event, id: string)
    requires UiTypeOf(e).None? || ItemId(e) != id
    ensures Own(events + [e], id) == Own(events, id)
  {
  }

  lemma OwnItemSnoc(own: seq<Event>, e: Event, id: string, aliases: Aliases)
    requires own != [] && UiTypeOf(own[0]).Some? && UiTypeOf(e).Some? && !HasAttachments(e.data)
    ensures Content(OwnItem(own, id, aliases), UiTypeOf(e).value, e) == OwnItem(own + [e], id, aliases)
  {
  }

  lemma FindsOwn(ts: TurnState, events: seq<Event>, aliases: Aliases, e: Event)
    requires ts.Valid() && LiveShape(ts, events, aliases) && LiveEvent(e, aliases) && UiTypeOf(e).Some?
    ensures var found := FindOwn(ts, UiTypeOf(e).value, e);
      && (found.Some? <==> ItemId(e) in FirstIds(events))
      && (found.Some? ==> found.value < |FirstIds(events)| && FirstIds(events)[found.value] == ItemId(e))
    ensures FindCross(ts, UiTypeOf(e).value, e) == None
    ensures forall s | s in ts.states :: CodexStream in s.sourceIds
  {
    var ids := FirstIds(events);
    forall s | s in ts.states ensures CodexStream in s.sourceIds {
      var i :| 0 <= i < |ts.states| && ts.states[i] == s;
      assert IsOwnItem(s, Own(events, ids[i]), ids[i], aliases);
    }
    NoCrossMatches(ts.states, UiTypeOf(e).value, e);
    if ItemId(e) in ids {
      var i :| 0 <= i < |ids| && ids[i] == ItemId(e);
      assert ts.bySource[SourceId(CodexStream, ids[i])] == i;
    }
  }

  /** An event of an item that already carries its id only changes the content. */
  lemma ApplyKnown(ts: TurnState, e: Event, i: nat, aliases: Aliases, turn: string)
    requires ts.Valid() && UiTypeOf(e).Some? && FindOwn(ts, UiTypeOf(e).value, e) == Some(i)
    requires i < |ts.states| && ItemId(e) != ""
    requires e.source in ts.states[i].sourceIds && ts.states[i].sourceIds[e.source] == ItemId(e)
    requires SourceId(e.source, ItemId(e)) in ts.bySource && ts.bySource[SourceId(e.source, ItemId(e))] == i
    ensures Apply(ts, e, aliases, turn) == ts.(states := ts.states[i := Content(ts.states[i], UiTypeOf(e).value, e)])
  {
    hide FindOwn, Content;
    var ids := ts.states[i].sourceIds;
    assert ids[e.source := ItemId(e)] == ids;
    assert ts.bySource[SourceId(e.source, ItemId(e)) := i] == ts.bySource;
    assert ts.states[i := ts.states[i]] == ts.states;
    assert Claimed(ts, i, e) == ts;
  }

  /** The item an unmatched event creates. */
  function NewItem(e: Event, ui: UiType, aliases: Aliases): ItemState {
    Content(ItemState(e.eventId, InitialIds(e, aliases), ui, e.sequence, "", None, false, [], false), ui, e)
  }

  lemma ApplyNew(ts: TurnState, e: Event, aliases: Aliases, turn: string)
    requires ts.Valid() && UiTypeOf(e).Some?
    requires FindOwn(ts, UiTypeOf(e).value, e) == None && FindCross(ts, UiTypeOf(e).value, e) == None
    requires forall s | s in ts.states :: e.source in s.sourceIds
    ensures var ids := InitialIds(e, aliases);
      Apply(ts, e, aliases, turn) == ts.(
        states := ts.states + [NewItem(e, UiTypeOf(e).value, aliases)],
        bySource := ts.bySource + IndexOf(ids, |ts.states|))
  {
  }

  lemma KnownIdStep(ts: TurnState, events: seq<Event>, aliases: Aliases, e: Event, turn: string)
    requires ts.Valid() && LiveShape(ts, events, aliases) && LiveEvent(e, aliases) && UiTypeOf(e).Some?
    requires ItemId(e) in FirstIds(events) && forall o | o in events :: LiveEvent(o, aliases)
    ensures LiveShape(Apply(ts, e, aliases, turn), events + [e], aliases)
  {
    FindsOwn(ts, events, aliases, e);
    hide FindOwn, FindCross, Content, Apply, OwnItem, IsOwnItem, FirstIds, Own;
    var ids, ui := FirstIds(events), UiTypeOf(e).value;
    var i := FindOwn(ts, ui, e).value;
    ExtendsOwnItem(ts.states[i], events, e, ids[i], aliases);
    ApplyKnown(ts, e, i, aliases, turn);
    OwnSnoc(events, e, ids[i]);
    var after := Apply(ts, e, aliases, turn);
    forall k | 0 <= k < |ids| ensures IsOwnItem(after.states[k], Own(events + [e], ids[k]), ids[k], aliases) {
      if k != i {
        OwnOther(events, e, ids[k]);
      }
    }
  }

  lemma ExtendsOwnItem(s: ItemState, events: seq<Event>, e: Event, id: string, aliases: Aliases)
    requires IsOwnItem(s, Own(events, id), id, aliases) && LiveEvent(e, aliases) && UiTypeOf(e).Some? && ItemId(e) == id
    requires forall o | o in events :: LiveEvent(o, aliases)
    ensures IsOwnItem(Content(s, UiTypeOf(e).value, e), Own(events + [e], id), id, aliases)
    ensures CodexStream in s.sourceIds && s.sourceIds[CodexStream] == id
  {
    hide Content, TextFold, PayloadFold;
    var own := Own(events, id);
    OwnFacts(events, id);
    assert own[0] in own;
    OwnSnoc(events, e, id);
    OwnItemSnoc(own, e, id, aliases);
  }

  lemma NewItemIsOwn(e: Event, aliases: Aliases)
    requires UiTypeOf(e).Some? && LiveEvent(e, aliases)
    ensures IsOwnItem(NewItem(e, UiTypeOf(e).value, aliases), [e], ItemId(e), aliases)
  {
    assert [e][..0] == [];
    assert TextFold([]) == "" && PayloadFold([]) == None;
  }

  lemma NewIdStep(ts: TurnState, events: seq<Event>, aliases: Aliases, e: Event, turn: string)
    requires ts.Valid() && LiveShape(ts, events, aliases) && LiveEvent(e, aliases) && UiTypeOf(e).Some?
    requires ItemId(e) !in FirstIds(events)
    ensures LiveShape(Apply(ts, e, aliases, turn), events + [e], aliases)
  {
    FindsOwn(ts, events, aliases, e);
    ApplyNew(ts, e, aliases, turn);
    NewItemIsOwn(e, aliases);
    hide LiveShape, FindOwn, FindCross, Apply, NewItem, IsOwnItem, InitialIds;
    NewIdShape(ts, Apply(ts, e, aliases, turn), events, aliases, e, NewItem(e, UiTypeOf(e).value, aliases));
  }

  lemma NewIdShape(ts: TurnState, after: TurnState, events: seq<Event>, aliases: Aliases, e: Event, item: ItemState)
    requires LiveShape(ts, events, aliases) && LiveEvent(e, aliases) && UiTypeOf(e).Some?
    requires ItemId(e) !in FirstIds(events)
    requires IsOwnItem(item, [e], ItemId(e), aliases)
    requires after.states == ts.states + [item] && after.suggestions == ts.suggestions
    requires after.bySource == ts.bySource + IndexOf(InitialIds(e, aliases), |ts.states|)
    ensures LiveShape(after, events + [e], aliases)
  {
    hide IsOwnItem, FirstIds, Own, StreamIndex, UiTypeOf;
    var ids, id := FirstIds(events), ItemId(e);
    OwnFacts(events, id);
    OwnSnoc(events, e, id);
    forall k | 0 <= k < |ids| ensures IsOwnItem(after.states[k], Own(events + [e], ids[k]), ids[k], aliases) {
      OwnOther(events, e, ids[k]);
    }
    assert Own(events + [e], id) == [e];
    var keys := InitialIds(e, aliases);
    assert CodexStream in keys && keys[CodexStream] == id;
    StreamIndexGrows(ts.bySource, ids, id, keys);
  }

  /** Every live id is found at its item's position. */
  ghost predicate StreamIndex(bySource: map<SourceId, nat>, ids: seq<string>) {
    && (forall id :: SourceId(CodexStream, id) in bySource <==> id in ids)
    && (forall i | 0 <= i < |ids| :: bySource[SourceId(CodexStream, ids[i])] == i)
  }

  lemma StreamIndexGrows(bySource: map<SourceId, nat>, ids: seq<string>, id: string, keys: map<Source, string>)
    requires StreamIndex(bySource, ids) && id !in ids && CodexStream in keys && keys[CodexStream] == id
    ensures StreamIndex(bySource + IndexOf(keys, |ids|), ids + [id])
  {
  }

  /** The shape of a live turn, after every event. */
  lemma {:induction false} LiveTurnShape(events: seq<Event>, aliases: Aliases, turn: string)
    requires forall e | e in events :: LiveEvent(e, aliases)
    ensures LiveShape(TurnFold(NEW_TURN, events, aliases, turn), events, aliases)
    decreases |events|
  {
    if events != [] {
      hide Apply, LiveShape;
      var n := |events| - 1;
      var front, e := events[..n], events[n];
      LiveTurnShape(front, aliases, turn);
      var ts := TurnFold(NEW_TURN, front, aliases, turn);
      assert events == front + [e];
      assert e in events;
      if UiTypeOf(e).None? {
        OtherEventStep(ts, front, aliases, e, turn);
      } else if ItemId(e) in FirstIds(front) {
        KnownIdStep(ts, front, aliases, e, turn);
      } else {
        NewIdStep(ts, front, aliases, e, turn);
      }
    }
  }

  lemma OtherEventStep(ts: TurnState, events: seq<Event>, aliases: Aliases, e: Event, turn: string)
    requires ts.Valid() && LiveShape(ts, events, aliases) && UiTypeOf(e).None?
    ensures LiveShape(Apply(ts, e, aliases, turn), events + [e], aliases)
  {
    var ids := FirstIds(events);
    forall id ensures Own(events + [e], id) == Own(events, id) {
      OwnSnoc(events, e, id);
    }
    OwnSnoc(events, e, "");
    assert FirstIds(events + [e]) == ids;
  }

  /** In a live turn there is one item per id, and its text and payload are those of that id's own events alone. */
  lemma LiveItemsAreFolds(events: seq<Event>, thread: string, turn: string)
    requires Ordered(events)
    requires forall e | e in TurnEvents(events, turn) :: LiveEvent(e, map[])
    requires forall e | e in events :: e.kind != AliasAttached
    ensures var mine := TurnEvents(events, turn);
      var ids := FirstIds(mine);
      var items := TurnOf(events, thread, turn).items;
      && Distinct(ids) && |items| == |ids|
      && (forall e | e in mine && UiTypeOf(e).Some? :: ItemId(e) in ids)
      && forall i | 0 <= i < |ids| :: ShowsOwn(items[i], Own(mine, ids[i]), ids[i], thread, turn)
  {
    hide TurnFold, LiveShape, FirstIds, Own, Items, Shown;
    var mine := TurnEvents(events, turn);
    AliasesConcat([], events);
    assert [] + events == events && AliasesByTarget([]) == map[];
    LiveTurnShape(mine, map[], turn);
    TurnEventsOrdered(events, turn);
    ItemsInCreationOrder(mine, map[], thread, turn);
    forall e | e in mine && UiTypeOf(e).Some? ensures ItemId(e) in FirstIds(mine) {
      FirstIdsComplete(mine, e);
    }
    ShownItems(TurnFold(NEW_TURN, mine, map[], turn), mine, thread, turn);
  }

  /** An item of the finished timeline against the events of its id; the first one gives its type and its console id. */
  ghost predicate ShowsOwn(item: Item, own: seq<Event>, id: string, thread: string, turn: string) {
    && item.sourceIds == map[CodexStream := id] && !item.unresolved
    && own != [] && item.id == ConsoleId(thread, turn, own[0].eventId) && UiTypeOf(own[0]) == Some(item.uiType)
    && (item.uiType.IsMessage() ==> item.text == TextFold(own))
    && (!item.uiType.IsMessage() ==> item.payload == PayloadFold(own))
  }

  lemma ShownItems(ts: TurnState, mine: seq<Event>, thread: string, turn: string)
    requires LiveShape(ts, mine, map[])
    ensures var ids := FirstIds(mine);
      && Distinct(ids) && |ts.states| == |ids|
      && forall i | 0 <= i < |ids| :: ShowsOwn(Shown(ts.states[i], thread, turn), Own(mine, ids[i]), ids[i], thread, turn)
  {
  }

  lemma {:induction false} FirstIdsComplete(events: seq<Event>, e: Event)
    requires e in events && UiTypeOf(e).Some?
    ensures ItemId(e) in FirstIds(events)
  {
    var n := |events| - 1;
    if e in events[..n] {
      FirstIdsComplete(events[..n], e);
    }
  }
}
