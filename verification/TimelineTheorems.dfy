/** Items are never lost, reordered or renamed, and a live item's text depends on its own events only. */
module TimelineTheorems {
  import opened Records
  import opened Timeline
  import opened Sorting

  // ----- folds -----

  lemma {:induction false} TurnFoldConcat(start: TurnState, left: seq<Event>, right: seq<Event>, aliases: Aliases, turn: string)
    requires start.Valid()
    ensures TurnFold(start, left + right, aliases, turn)
      == TurnFold(TurnFold(start, left, aliases, turn), right, aliases, turn)
    decreases |right|
  {
    if right == [] {
      assert left + right == left;
    } else {
      hide Apply;
      var n := |right| - 1;
      assert (left + right)[..|left + right| - 1] == left + right[..n];
      TurnFoldConcat(start, left, right[..n], aliases, turn);
    }
  }

  // ----- the identity of items -----

  /** The first items are the same ones: same creating event, same type, same place. */
  ghost predicate SameItems(before: seq<ItemState>, after: seq<ItemState>) {
    && |before| <= |after|
    && forall i | 0 <= i < |before| ::
      && before[i].target == after[i].target
      && before[i].uiType == after[i].uiType
      && before[i].firstSeq == after[i].firstSeq
  }

  lemma FilledKeepsItems(ts: TurnState, i: nat, ui: UiType, e: Event)
    requires ts.Valid() && i < |ts.states|
    ensures SameItems(ts.states, Filled(ts, i, ui, e).states) && SameItems(ts.states, Claimed(ts, i, e).states)
  {
  }

  lemma CreatedKeepsItems(ts: TurnState, ui: UiType, e: Event, aliases: Aliases)
    requires ts.Valid()
    ensures var r := Created(ts, ui, e, aliases);
      && SameItems(ts.states, r.states)
      && r.states[|ts.states|].target == e.eventId && r.states[|ts.states|].firstSeq == e.sequence
  {
  }

  ghost predicate OneMoreItem(before: seq<ItemState>, after: seq<ItemState>, e: Event) {
    && SameItems(before, after)
    && (|after| == |before|
        || (|after| == |before| + 1 && after[|before|].target == e.eventId && after[|before|].firstSeq == e.sequence))
  }

  lemma ApplyKeepsItems(ts: TurnState, e: Event, aliases: Aliases, turn: string)
    requires ts.Valid()
    ensures OneMoreItem(ts.states, Apply(ts, e, aliases, turn).states, e)
  {
    hide FindOwn, FindCross, Created, Claimed, Filled, UiTypeOf;
    var ui := UiTypeOf(e);
    if !e.kind.Terminal() && ui.Some? {
      var (placed, i) := Placed(ts, ui.value, e, aliases, turn);
      if FindOwn(ts, ui.value, e).Some? || FindCross(ts, ui.value, e).Some? {
        FilledKeepsItems(ts, i, ui.value, e);
      } else {
        CreatedKeepsItems(ts, ui.value, e, aliases);
      }
      FilledKeepsItems(placed, i, ui.value, e);
    }
  }

  /** Items come in the order of the events that created them. */
  ghost predicate InOrder(states: seq<ItemState>) {
    forall i, j | 0 <= i < j < |states| :: states[i].firstSeq < states[j].firstSeq
  }

  lemma {:induction false} FoldKeepsItems(start: TurnState, events: seq<Event>, aliases: Aliases, turn: string)
    requires start.Valid()
    ensures SameItems(start.states, TurnFold(start, events, aliases, turn).states)
    decreases |events|
  {
    if events != [] {
      var n := |events| - 1;
      FoldKeepsItems(start, events[..n], aliases, turn);
      ApplyKeepsItems(TurnFold(start, events[..n], aliases, turn), events[n], aliases, turn);
    }
  }

  ghost predicate CreatedIn(s: ItemState, events: seq<Event>) {
    exists e :: e in events && e.eventId == s.target && e.sequence == s.firstSeq
  }

  /** Every item was created by its own event of the turn. */
  lemma {:induction false} FoldInOrder(events: seq<Event>, aliases: Aliases, turn: string)
    requires Ordered(events)
    ensures var states := TurnFold(NEW_TURN, events, aliases, turn).states;
      && InOrder(states)
      && forall i | 0 <= i < |states| :: CreatedIn(states[i], events)
    decreases |events|
  {
    if events != [] {
      hide Apply, UiTypeOf;
      var n := |events| - 1;
      FoldInOrder(events[..n], aliases, turn);
      var before := TurnFold(NEW_TURN, events[..n], aliases, turn);
      ApplyKeepsItems(before, events[n], aliases, turn);
      assert events == events[..n] + [events[n]];
      InOrderSnoc(before.states, TurnFold(NEW_TURN, events, aliases, turn).states, events[..n], events[n]);
    }
  }

  lemma InOrderSnoc(before: seq<ItemState>, states: seq<ItemState>, front: seq<Event>, last: Event)
    requires Ordered(front + [last]) && InOrder(before) && OneMoreItem(before, states, last)
    requires forall i | 0 <= i < |before| :: CreatedIn(before[i], front)
    ensures InOrder(states) && forall i | 0 <= i < |states| :: CreatedIn(states[i], front + [last])
  {
    var all := front + [last];
    assert all[|front|] == last;
    forall i | 0 <= i < |states| ensures CreatedIn(states[i], all)
      ensures i < |before| ==> states[i].firstSeq < last.sequence
    {
      if i < |before| {
        var e :| e in front && e.eventId == before[i].target && e.sequence == before[i].firstSeq;
        var k :| 0 <= k < |front| && front[k] == e;
        assert all[k] == e;
      } else {
        assert last in all;
      }
    }
  }

  /** So the final sort changes nothing. */
  lemma ItemsInCreationOrder(events: seq<Event>, aliases: Aliases, thread: string, turn: string)
    requires Ordered(events)
    ensures var states := TurnFold(NEW_TURN, events, aliases, turn).states;
      var items := Items(states, thread, turn);
      |items| == |states| && forall i | 0 <= i < |items| :: items[i] == Shown(states[i], thread, turn)
  {
    FoldInOrder(events, aliases, turn);
    SortKeepsOrdered(TurnFold(NEW_TURN, events, aliases, turn).states, (a: ItemState, b: ItemState) => a.firstSeq < b.firstSeq);
  }

  lemma {:induction false} AliasesConcat(events: seq<Event>, more: seq<Event>)
    requires forall e | e in more :: e.kind != AliasAttached
    ensures AliasesByTarget(events + more) == AliasesByTarget(events)
    decreases |more|
  {
    if more == [] {
      assert events + more == events;
    } else {
      assert (events + more)[..|events + more| - 1] == events + more[..|more| - 1];
      AliasesConcat(events, more[..|more| - 1]);
    }
  }

  function ConsoleIds(items: seq<Item>): (ids: seq<ConsoleId>)
    ensures |ids| == |items| && forall i | 0 <= i < |ids| :: ids[i] == items[i].id
  {
    seq(|items|, i requires 0 <= i < |items| => items[i].id)
  }

  /** Extending a journal by any records but aliases keeps every turn's item ids as a prefix. */
  lemma ExtensionKeepsItems(events: seq<Event>, more: seq<Event>, thread: string, turn: string)
    requires Ordered(events + more)
    requires forall e | e in more :: e.kind != AliasAttached
    ensures ConsoleIds(TurnOf(events, thread, turn).items) <= ConsoleIds(TurnOf(events + more, thread, turn).items)
  {
    var aliases := AliasesByTarget(events);
    var mine, added := TurnEvents(events, turn), TurnEvents(more, turn);
    AliasesConcat(events, more);
    TurnEventsConcat(events, more, turn);
    TurnFoldConcat(NEW_TURN, mine, added, aliases, turn);
    FoldKeepsItems(TurnFold(NEW_TURN, mine, aliases, turn), added, aliases, turn);
    TurnEventsOrdered(events + more, turn);
    assert Ordered(events) by {
      assert forall i | 0 <= i < |events| :: (events + more)[i] == events[i];
    }
    TurnEventsOrdered(events, turn);
    ItemsInCreationOrder(mine, aliases, thread, turn);
    ItemsInCreationOrder(mine + added, aliases, thread, turn);
  }
}
