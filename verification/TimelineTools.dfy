/** Tools keep to themselves: a turn's messages come out as they would without its tool events. */
module TimelineTools {
  import opened Records
  import opened Timeline

  predicate IsMessage(e: Event) {
    UiTypeOf(e).Some? && UiTypeOf(e).value.IsMessage()
  }

  predicate IsTool(e: Event) {
    UiTypeOf(e).Some? && !UiTypeOf(e).value.IsMessage()
  }

  /** The events that are not a tool's. */
  function Spoken(events: seq<Event>): (r: seq<Event>)
    ensures forall e :: e in r <==> e in events && !IsTool(e)
  {
    if events == [] then []
    else
      var last := events[|events| - 1];
      assert events == events[..|events| - 1] + [last];
      Spoken(events[..|events| - 1]) + if IsTool(last) then [] else [last]
  }

  /** The items that are messages. */
  function Messages(states: seq<ItemState>): (r: seq<ItemState>)
    ensures forall s :: s in r <==> s in states && s.uiType.IsMessage()
  {
    if states == [] then []
    else
      var last := states[|states| - 1];
      assert states == states[..|states| - 1] + [last];
      Messages(states[..|states| - 1]) + if last.uiType.IsMessage() then [last] else []
  }

  /** How many messages come before a position. */
  function Rank(states: seq<ItemState>, i: nat): nat
    requires i <= |states|
  {
    |Messages(states[..i])|
  }

  lemma MessagesSnoc(states: seq<ItemState>, s: ItemState)
    ensures Messages(states + [s]) == Messages(states) + if s.uiType.IsMessage() then [s] else []
    ensures forall i | 0 <= i <= |states| :: Rank(states + [s], i) == Rank(states, i)
    ensures Rank(states, |states|) == |Messages(states)|
  {
    assert (states + [s])[..|states|] == states;
    assert states[..|states|] == states;
    forall i | 0 <= i <= |states| ensures Rank(states + [s], i) == Rank(states, i) {
      assert (states + [s])[..i] == states[..i];
    }
  }

  lemma {:induction false} MessageAt(states: seq<ItemState>, i: nat)
    requires i < |states| && states[i].uiType.IsMessage()
    ensures Rank(states, i) < |Messages(states)| && Messages(states)[Rank(states, i)] == states[i]
  {
    hide Messages;
    var n := |states| - 1;
    assert states == states[..n] + [states[n]];
    MessagesSnoc(states[..n], states[n]);
    if i < n {
      MessageAt(states[..n], i);
    }
  }

  /** Two lists with messages at the same places. */
  ghost predicate SamePlaces(a: seq<ItemState>, b: seq<ItemState>) {
    |a| == |b| && forall i | 0 <= i < |a| :: a[i].uiType == b[i].uiType
  }

  lemma {:induction false} SameRank(a: seq<ItemState>, b: seq<ItemState>, i: nat)
    requires SamePlaces(a, b) && i <= |a|
    ensures Rank(a, i) == Rank(b, i)
  {
    if i > 0 {
      SameRank(a, b, i - 1);
      assert a[..i][..i - 1] == a[..i - 1] && b[..i][..i - 1] == b[..i - 1];
    }
  }

  /** Changing a tool changes no message; changing a message changes it at its rank. */
  lemma {:induction false} MessagesUpdated(states: seq<ItemState>, i: nat, s: ItemState)
    requires i < |states| && s.uiType == states[i].uiType
    ensures !s.uiType.IsMessage() ==> Messages(states[i := s]) == Messages(states)
    ensures s.uiType.IsMessage() ==>
      Rank(states, i) < |Messages(states)| && Messages(states[i := s]) == Messages(states)[Rank(states, i) := s]
  {
    hide Messages;
    var n := |states| - 1;
    var front := states[..n];
    assert states == front + [states[n]];
    MessagesSnoc(front, states[n]);
    if i == n {
      assert states[i := s] == front + [s];
      MessagesSnoc(front, s);
    } else {
      assert states[i := s] == front[i := s] + [states[n]];
      MessagesUpdated(front, i, s);
      MessagesSnoc(front[i := s], states[n]);
    }
  }

  // ----- finding the same message in both -----

  ghost predicate Positions(states: seq<ItemState>, found: seq<nat>) {
    forall k | 0 <= k < |found| :: found[k] < |states|
  }

  function Ranks(states: seq<ItemState>, found: seq<nat>): (ranks: seq<nat>)
    requires Positions(states, found)
    ensures |ranks| == |found| && forall k | 0 <= k < |found| :: ranks[k] == Rank(states, found[k])
  {
    seq(|found|, k requires 0 <= k < |found| => Rank(states, found[k]))
  }

  lemma RanksSnoc(front: seq<ItemState>, s: ItemState, found: seq<nat>)
    requires Positions(front, found)
    ensures Positions(front + [s], found) && Ranks(front + [s], found) == Ranks(front, found)
    ensures Positions(front + [s], found + [|front|]) && Ranks(front + [s], found + [|front|]) == Ranks(front, found) + [|Messages(front)|]
  {
    hide Messages;
    MessagesSnoc(front, s);
  }

  lemma CrossSnoc(states: seq<ItemState>, s: ItemState, ui: UiType, e: Event)
    ensures CrossMatches(states + [s], ui, e) == CrossMatches(states, ui, e) + if CrossMatch(s, ui, e) then [|states|] else []
    ensures CrossMatch(s, ui, e) ==> s.uiType == ui
    ensures Positions(states, CrossMatches(states, ui, e))
  {
    var found := CrossMatches(states, ui, e);
    assert forall k | 0 <= k < |found| :: found[k] in found;
  }

  lemma {:induction false} CrossMatchesSpoken(states: seq<ItemState>, ui: UiType, e: Event)
    requires ui.IsMessage()
    ensures Positions(states, CrossMatches(states, ui, e))
    ensures CrossMatches(Messages(states), ui, e) == Ranks(states, CrossMatches(states, ui, e))
  {
    hide CrossMatch, CrossMatches, Messages, Positions;
    if states == [] {
      NothingFound(ui, e);
    } else {
      var n := |states| - 1;
      var front, s := states[..n], states[n];
      assert states == front + [s];
      CrossMatchesSpoken(front, ui, e);
      CrossSnoc(front, s, ui, e);
      CrossSnoc(Messages(front), s, ui, e);
      RanksSnoc(front, s, CrossMatches(front, ui, e));
      MessagesSnoc(front, s);
      PlusNothing(CrossMatches(front, ui, e));
      PlusNothing(CrossMatches(Messages(front), ui, e));
      PlusNothing(Messages(front));
    }
  }

  lemma PlusNothing<T>(xs: seq<T>)
    ensures xs + [] == xs
  {
  }

  lemma NothingFound(ui: UiType, e: Event)
    ensures Messages([]) == [] && CrossMatches([], ui, e) == [] && AttachmentMatches([], ui, TextOf(e)) == []
    ensures Positions([], []) && Ranks([], []) == []
  {
  }

  lemma AttachmentSnoc(states: seq<ItemState>, s: ItemState, ui: UiType, text: string)
    ensures AttachmentMatches(states + [s], ui, text)
      == AttachmentMatches(states, ui, text) + if AttachmentMatch(s, ui, text) then [|states|] else []
    ensures AttachmentMatch(s, ui, text) ==> s.uiType == ui
    ensures Positions(states, AttachmentMatches(states, ui, text))
  {
    var found := AttachmentMatches(states, ui, text);
    assert forall k | 0 <= k < |found| :: found[k] in found;
  }

  lemma {:induction false} AttachmentMatchesSpoken(states: seq<ItemState>, ui: UiType, e: Event)
    requires ui.IsMessage()
    ensures Positions(states, AttachmentMatches(states, ui, TextOf(e)))
    ensures AttachmentMatches(Messages(states), ui, TextOf(e)) == Ranks(states, AttachmentMatches(states, ui, TextOf(e)))
  {
    hide AttachmentMatch, AttachmentMatches, Messages, Positions;
    if states == [] {
      NothingFound(ui, e);
    } else {
      var n := |states| - 1;
      var front, s := states[..n], states[n];
      assert states == front + [s];
      AttachmentMatchesSpoken(front, ui, e);
      AttachmentSnoc(front, s, ui, TextOf(e));
      AttachmentSnoc(Messages(front), s, ui, TextOf(e));
      RanksSnoc(front, s, AttachmentMatches(front, ui, TextOf(e)));
      MessagesSnoc(front, s);
      PlusNothing(AttachmentMatches(front, ui, TextOf(e)));
      PlusNothing(AttachmentMatches(Messages(front), ui, TextOf(e)));
      PlusNothing(Messages(front));
    }
  }

  lemma {:induction false} MatchesHaveType(states: seq<ItemState>, ui: UiType, e: Event)
    ensures forall i | i in CrossMatches(states, ui, e) :: states[i].uiType == ui
    ensures forall i | i in AttachmentMatches(states, ui, TextOf(e)) :: states[i].uiType == ui
  {
    if states != [] {
      MatchesHaveType(states[..|states| - 1], ui, e);
    }
  }

  // ----- the projection -----

  /** The keys that belong to messages, and the events that create them. */
  datatype Side = Side(keys: set<SourceId>, targets: set<string>)

  /** The keys an event can be found by or can enter into the index. */
  function EventKeys(e: Event, aliases: Aliases): set<SourceId> {
    (if ItemId(e) != "" then {SourceId(e.source, ItemId(e))} else {})
    + if e.eventId in aliases then IndexOf(aliases[e.eventId], 0).Keys else {}
  }

  /** Messages stay on their side, tools off it. */
  predicate Keeps(e: Event, aliases: Aliases, side: Side) {
    && (IsMessage(e) ==> EventKeys(e, aliases) <= side.keys && e.eventId in side.targets)
    && (IsTool(e) ==> EventKeys(e, aliases) !! side.keys && e.eventId !in side.targets)
  }

  /** A side's keys are indexed at the same messages, and no other key is indexed at a message. */
  ghost predicate IndexProjects(ts: TurnState, there: map<SourceId, nat>, side: Side)
    requires ts.Valid()
  {
    && (forall key | key in ts.bySource :: ts.states[ts.bySource[key]].uiType.IsMessage() <==> key in side.keys)
    && (forall key | key in side.keys :: key in there <==> key in ts.bySource)
    && (forall key | key in side.keys && key in ts.bySource :: there[key] == Rank(ts.states, ts.bySource[key]))
  }

  /** The second turn holds exactly the messages of the first. */
  ghost predicate Projects(ts: TurnState, us: TurnState, side: Side)
    requires ts.Valid()
  {
    && us.states == Messages(ts.states) && us.status == ts.status
    && IndexProjects(ts, us.bySource, side)
    && TargetsKept(ts.states, side)
    && (forall link :: link in us.suggestions <==> link in ts.suggestions && link.target in side.targets)
  }

  // ----- a tool event -----

  lemma ToolFound(ts: TurnState, us: TurnState, e: Event, aliases: Aliases, side: Side)
    requires ts.Valid() && Projects(ts, us, side) && IsTool(e) && Keeps(e, aliases, side)
    ensures var own, cross := FindOwn(ts, UiTypeOf(e).value, e), FindCross(ts, UiTypeOf(e).value, e);
      && (own.Some? ==> !ts.states[own.value].uiType.IsMessage())
      && (cross.Some? ==> !ts.states[cross.value].uiType.IsMessage())
  {
    hide AttachmentMatches, CrossMatches, Messages;
    MatchesHaveType(ts.states, UiTypeOf(e).value, e);
  }

  /** One item changes in place: a message at its rank as well, a tool not. */
  lemma ItemChanged(ts: TurnState, us: TurnState, i: nat, s: ItemState, side: Side)
    requires ts.Valid() && Projects(ts, us, side) && i < |ts.states|
    requires s.uiType == ts.states[i].uiType && s.target == ts.states[i].target
    ensures var after := ts.(states := ts.states[i := s]);
      && after.Valid() && Rank(after.states, i) == Rank(ts.states, i)
      && (!s.uiType.IsMessage() ==> Projects(after, us, side))
      && (s.uiType.IsMessage() ==> Rank(ts.states, i) < |us.states| && us.states[Rank(ts.states, i)] == ts.states[i]
                                   && Projects(after, us.(states := us.states[Rank(ts.states, i) := s]), side))
  {
    hide Messages, Rank, IndexProjects, TargetsKept;
    MessagesUpdated(ts.states, i, s);
    SameRank(ts.states, ts.states[i := s], i);
    if s.uiType.IsMessage() {
      MessageAt(ts.states, i);
    }
    ChangedIndex(ts, us.bySource, i, s, side);
    ChangedTargets(ts.states, i, s, side);
  }

  lemma ChangedIndex(ts: TurnState, there: map<SourceId, nat>, i: nat, s: ItemState, side: Side)
    requires ts.Valid() && IndexProjects(ts, there, side) && i < |ts.states| && s.uiType == ts.states[i].uiType
    ensures var after := ts.(states := ts.states[i := s]);
      after.Valid() && IndexProjects(after, there, side)
  {
    hide Messages, Rank;
    var after := ts.(states := ts.states[i := s]);
    forall key | key in side.keys && key in after.bySource ensures there[key] == Rank(after.states, after.bySource[key]) {
      SameRank(ts.states, after.states, after.bySource[key]);
    }
  }

  lemma ChangedTargets(states: seq<ItemState>, i: nat, s: ItemState, side: Side)
    requires TargetsKept(states, side) && i < |states| && s.uiType == states[i].uiType && s.target == states[i].target
    ensures TargetsKept(states[i := s], side)
  {
    assert states[i] in states;
  }

  /** One more key for an item on its side. */
  lemma KeyAdded(ts: TurnState, there: map<SourceId, nat>, i: nat, key: SourceId, side: Side)
    requires ts.Valid() && IndexProjects(ts, there, side) && i < |ts.states|
    requires ts.states[i].uiType.IsMessage() <==> key in side.keys
    ensures var after := ts.(bySource := ts.bySource[key := i]);
      after.Valid() && IndexProjects(after, if key in side.keys then there[key := Rank(ts.states, i)] else there, side)
  {
    hide Rank;
  }

  lemma ToolClaims(ts: TurnState, us: TurnState, i: nat, e: Event, aliases: Aliases, side: Side)
    requires ts.Valid() && Projects(ts, us, side) && IsTool(e) && Keeps(e, aliases, side)
    requires i < |ts.states| && !ts.states[i].uiType.IsMessage()
    ensures Projects(Claimed(ts, i, e), us, side)
    ensures !Claimed(ts, i, e).states[i].uiType.IsMessage()
  {
    hide Messages, Rank, IndexProjects, TargetsKept;
    if ItemId(e) != "" {
      var s := Claimed(ts, i, e).states[i];
      ItemChanged(ts, us, i, s, side);
      KeyAdded(ts.(states := ts.states[i := s]), us.bySource, i, SourceId(e.source, ItemId(e)), side);
    }
  }

  lemma ToolSuggests(ts: TurnState, us: TurnState, i: nat, e: Event, turn: string, side: Side)
    requires ts.Valid() && Projects(ts, us, side) && i < |ts.states| && !ts.states[i].uiType.IsMessage()
    ensures Projects(Suggested(ts, i, e, turn), us, side)
  {
    hide Messages, Rank;
  }

  lemma ToolFills(ts: TurnState, us: TurnState, i: nat, e: Event, side: Side)
    requires ts.Valid() && Projects(ts, us, side) && i < |ts.states| && !ts.states[i].uiType.IsMessage() && IsTool(e)
    ensures Projects(Filled(ts, i, UiTypeOf(e).value, e), us, side)
  {
    ContentKeepsPlace(ts.states[i], UiTypeOf(e).value, e);
    hide Content, Projects;
    ItemChanged(ts, us, i, Content(ts.states[i], UiTypeOf(e).value, e), side);
  }

  lemma {:induction false} SameMessages(a: seq<ItemState>, b: seq<ItemState>)
    requires SamePlaces(a, b) && forall i | 0 <= i < |a| && a[i].uiType.IsMessage() :: a[i] == b[i]
    ensures Messages(a) == Messages(b)
  {
    if a != [] {
      SameMessages(a[..|a| - 1], b[..|b| - 1]);
    }
  }

  lemma AliasKeysAreEventKeys(e: Event, aliases: Aliases, n: nat)
    ensures IndexOf(InitialIds(e, aliases), n).Keys <= EventKeys(e, aliases)
  {
  }

  /** A new item after the marked ones. */
  lemma CreatedParts(ts: TurnState, ui: UiType, e: Event, aliases: Aliases) returns (item: ItemState, index: map<SourceId, nat>)
    requires ts.Valid()
    ensures Created(ts, ui, e, aliases)
      == ts.(states := Marked(ts.states, ui, e.source) + [item], bySource := ts.bySource + index)
    ensures item.uiType == ui && item.target == e.eventId && item.firstSeq == e.sequence && item.text == "" && item.item == None
    ensures item.attachments == [] && !item.attachmentsUnavailable && item.sourceIds == InitialIds(e, aliases)
    ensures item.unresolved <==> exists s :: s in ts.states && Conflicting(s, ui, e.source)
    ensures index == IndexOf(InitialIds(e, aliases), |ts.states|) && index.Keys <= EventKeys(e, aliases)
  {
    AliasKeysAreEventKeys(e, aliases, |ts.states|);
    hide InitialIds, EventKeys;
    var made := Created(ts, ui, e, aliases);
    item, index := made.states[|ts.states|], IndexOf(InitialIds(e, aliases), |ts.states|);
  }

  /** The index after one more item, under the keys of its side. */
  lemma IndexGrows(
      ts: TurnState, before: map<SourceId, nat>, states: seq<ItemState>, index: map<SourceId, nat>,
      there: map<SourceId, nat>, side: Side)
    requires ts.Valid() && IndexProjects(ts, before, side) && |states| == |ts.states| + 1
    requires forall i | 0 <= i < |ts.states| ::
      states[i].uiType == ts.states[i].uiType && Rank(states, i) == Rank(ts.states, i)
    requires forall key | key in index :: index[key] == |ts.states|
    requires if states[|ts.states|].uiType.IsMessage()
             then index.Keys == there.Keys <= side.keys && forall key | key in there :: there[key] == Rank(states, |ts.states|)
             else index.Keys !! side.keys && there == map[]
    ensures var after := ts.(states := states, bySource := ts.bySource + index);
      after.Valid() && IndexProjects(after, before + there, side)
  {
    hide Rank;
  }

  lemma Appended(before: seq<ItemState>, marked: seq<ItemState>, item: ItemState)
    requires SamePlaces(before, marked)
    ensures var after := marked + [item];
      && (forall i | 0 <= i < |before| :: after[i].uiType == before[i].uiType && Rank(after, i) == Rank(before, i))
      && Rank(after, |before|) == |Messages(marked)| && Rank(before, |before|) == |Messages(before)|
      && Rank(marked, |before|) == Rank(before, |before|)
      && Messages(after) == Messages(marked) + if item.uiType.IsMessage() then [item] else []
  {
    hide Messages, Rank;
    MessagesSnoc(marked, item);
    MessagesSnoc(before, item);
    SameRank(before, marked, |before|);
    forall i | 0 <= i < |before| ensures Rank(marked + [item], i) == Rank(before, i) {
      SameRank(before, marked, i);
    }
  }

  ghost predicate TargetsKept(states: seq<ItemState>, side: Side) {
    forall s | s in states :: s.uiType.IsMessage() <==> s.target in side.targets
  }

  lemma TargetsGrow(before: seq<ItemState>, marked: seq<ItemState>, item: ItemState, side: Side)
    requires TargetsKept(before, side) && SamePlaces(before, marked)
    requires forall i | 0 <= i < |marked| :: marked[i].target == before[i].target
    requires item.uiType.IsMessage() <==> item.target in side.targets
    ensures TargetsKept(marked + [item], side)
  {
    forall s | s in marked + [item] ensures s.uiType.IsMessage() <==> s.target in side.targets {
      if s in marked {
        var i :| 0 <= i < |marked| && marked[i] == s;
        assert before[i] in before;
      }
    }
  }

  lemma ToolAdded(ts: TurnState, us: TurnState, marked: seq<ItemState>, item: ItemState, index: map<SourceId, nat>, side: Side)
    requires ts.Valid() && Projects(ts, us, side) && SamePlaces(ts.states, marked) && Messages(marked) == Messages(ts.states)
    requires forall i | 0 <= i < |marked| :: marked[i].target == ts.states[i].target
    requires !item.uiType.IsMessage() && item.target !in side.targets
    requires index.Keys !! side.keys && forall key | key in index :: index[key] == |marked|
    ensures var after := ts.(states := marked + [item], bySource := ts.bySource + index);
      after.Valid() && Projects(after, us, side)
  {
    hide Messages, Rank, IndexProjects, TargetsKept;
    Appended(ts.states, marked, item);
    PlusNothing(Messages(marked));
    IndexGrows(ts, us.bySource, marked + [item], index, map[], side);
    assert us.bySource + map[] == us.bySource;
    TargetsGrow(ts.states, marked, item, side);
  }

  lemma ToolCreates(ts: TurnState, us: TurnState, e: Event, aliases: Aliases, side: Side)
    requires ts.Valid() && Projects(ts, us, side) && IsTool(e) && Keeps(e, aliases, side)
    ensures Projects(Created(ts, UiTypeOf(e).value, e, aliases), us, side)
    ensures !Created(ts, UiTypeOf(e).value, e, aliases).states[|ts.states|].uiType.IsMessage()
  {
    hide Messages, Created, EventKeys, InitialIds, Projects;
    var ui := UiTypeOf(e).value;
    var item, index := CreatedParts(ts, ui, e, aliases);
    var marked := Marked(ts.states, ui, e.source);
    SameMessages(ts.states, marked);
    ToolAdded(ts, us, marked, item, index, side);
  }

  /** A tool event changes no message. */
  lemma ToolStep(ts: TurnState, us: TurnState, e: Event, aliases: Aliases, turn: string, side: Side)
    requires ts.Valid() && Projects(ts, us, side) && IsTool(e) && Keeps(e, aliases, side)
    ensures Projects(Apply(ts, e, aliases, turn), us, side)
  {
    hide Projects, Keeps, FindOwn, FindCross, Claimed, Suggested, Created, Filled;
    var ui := UiTypeOf(e).value;
    ToolFound(ts, us, e, aliases, side);
    var own, cross := FindOwn(ts, ui, e), FindCross(ts, ui, e);
    var (placed, i) := Placed(ts, ui, e, aliases, turn);
    if own.Some? {
      ToolClaims(ts, us, i, e, aliases, side);
    } else if cross.Some? {
      ToolClaims(ts, us, i, e, aliases, side);
      ToolSuggests(Claimed(ts, i, e), us, i, e, turn, side);
    } else {
      ToolCreates(ts, us, e, aliases, side);
    }
    ToolFills(placed, us, i, e, side);
  }

  // ----- a message event -----

  /** The same place in both turns. */
  ghost predicate SamePlace(ts: TurnState, found: Option<nat>, there: Option<nat>) {
    if found.None? then there.None?
    else found.value < |ts.states| && ts.states[found.value].uiType.IsMessage() && there == Some(Rank(ts.states, found.value))
  }

  lemma MessageFoundCross(ts: TurnState, us: TurnState, e: Event, side: Side)
    requires ts.Valid() && Projects(ts, us, side) && IsMessage(e)
    ensures SamePlace(ts, FindCross(ts, UiTypeOf(e).value, e), FindCross(us, UiTypeOf(e).value, e))
  {
    hide CrossMatches, Messages, Rank, IndexProjects;
    CrossMatchesSpoken(ts.states, UiTypeOf(e).value, e);
    MatchesHaveType(ts.states, UiTypeOf(e).value, e);
    var found := CrossMatches(ts.states, UiTypeOf(e).value, e);
    if |found| == 1 {
      assert found[0] in found;
    }
  }

  lemma MessageFoundOwn(ts: TurnState, us: TurnState, e: Event, aliases: Aliases, side: Side)
    requires ts.Valid() && us.Valid() && Projects(ts, us, side) && IsMessage(e) && Keeps(e, aliases, side)
    ensures SamePlace(ts, FindOwn(ts, UiTypeOf(e).value, e), FindOwn(us, UiTypeOf(e).value, e))
  {
    hide AttachmentMatches, Messages, Rank;
    AttachmentMatchesSpoken(ts.states, UiTypeOf(e).value, e);
    MatchesHaveType(ts.states, UiTypeOf(e).value, e);
    var found := AttachmentMatches(ts.states, UiTypeOf(e).value, TextOf(e));
    if |found| == 1 {
      assert found[0] in found;
    }
  }

  lemma MessageClaims(ts: TurnState, us: TurnState, i: nat, e: Event, aliases: Aliases, side: Side)
    requires ts.Valid() && us.Valid() && Projects(ts, us, side) && IsMessage(e) && Keeps(e, aliases, side)
    requires i < |ts.states| && ts.states[i].uiType.IsMessage()
    ensures Rank(ts.states, i) < |us.states| && Projects(Claimed(ts, i, e), Claimed(us, Rank(ts.states, i), e), side)
    ensures Claimed(ts, i, e).states[i].uiType.IsMessage() && Rank(Claimed(ts, i, e).states, i) == Rank(ts.states, i)
  {
    hide Messages, Rank, IndexProjects, TargetsKept;
    var s := Claimed(ts, i, e).states[i];
    ItemChanged(ts, us, i, s, side);
    if ItemId(e) != "" {
      KeyAdded(ts.(states := ts.states[i := s]), us.bySource, i, SourceId(e.source, ItemId(e)), side);
    }
  }

  lemma MessageSuggests(ts: TurnState, us: TurnState, i: nat, e: Event, turn: string, side: Side)
    requires ts.Valid() && us.Valid() && Projects(ts, us, side) && i < |ts.states| && ts.states[i].uiType.IsMessage()
    ensures Rank(ts.states, i) < |us.states| && Projects(Suggested(ts, i, e, turn), Suggested(us, Rank(ts.states, i), e, turn), side)
  {
    hide Messages, Rank;
    MessageAt(ts.states, i);
  }

  lemma MessageFills(ts: TurnState, us: TurnState, i: nat, e: Event, side: Side)
    requires ts.Valid() && us.Valid() && Projects(ts, us, side) && IsMessage(e)
    requires i < |ts.states| && ts.states[i].uiType.IsMessage()
    ensures Rank(ts.states, i) < |us.states|
    ensures Projects(Filled(ts, i, UiTypeOf(e).value, e), Filled(us, Rank(ts.states, i), UiTypeOf(e).value, e), side)
  {
    ContentKeepsPlace(ts.states[i], UiTypeOf(e).value, e);
    hide Content, Projects;
    ItemChanged(ts, us, i, Content(ts.states[i], UiTypeOf(e).value, e), side);
  }

  lemma ContentKeepsPlace(s: ItemState, ui: UiType, e: Event)
    ensures Content(s, ui, e).uiType == s.uiType && Content(s, ui, e).target == s.target
  {
  }

  lemma MarkedSnoc(front: seq<ItemState>, s: ItemState, ui: UiType, source: Source)
    ensures Marked(front + [s], ui, source)
      == Marked(front, ui, source) + [if Conflicting(s, ui, source) then s.(unresolved := true) else s]
  {
  }

  lemma {:induction false} MarkedMessages(states: seq<ItemState>, ui: UiType, source: Source)
    ensures Messages(Marked(states, ui, source)) == Marked(Messages(states), ui, source)
  {
    hide Messages, Marked, Conflicting;
    if states == [] {
      NothingMarked(ui, source);
    } else {
      var n := |states| - 1;
      var front, s := states[..n], states[n];
      assert states == front + [s];
      MarkedMessages(front, ui, source);
      MarkedSnoc(front, s, ui, source);
      MarkedSnoc(Messages(front), s, ui, source);
      MessagesSnoc(front, s);
      MessagesSnoc(Marked(front, ui, source), if Conflicting(s, ui, source) then s.(unresolved := true) else s);
      PlusNothing(Messages(front));
      PlusNothing(Messages(Marked(front, ui, source)));
    }
  }

  lemma NothingMarked(ui: UiType, source: Source)
    ensures Marked([], ui, source) == [] && Messages([]) == []
  {
  }

  lemma MessageAdded(
      ts: TurnState, us: TurnState, marked: seq<ItemState>, item: ItemState,
      index: map<SourceId, nat>, there: map<SourceId, nat>, side: Side)
    requires ts.Valid() && Projects(ts, us, side) && SamePlaces(ts.states, marked)
    requires forall i | 0 <= i < |marked| :: marked[i].target == ts.states[i].target
    requires item.uiType.IsMessage() && item.target in side.targets
    requires index.Keys == there.Keys <= side.keys
    requires forall key | key in index :: index[key] == |marked| && there[key] == |us.states|
    ensures var after := ts.(states := marked + [item], bySource := ts.bySource + index);
      var beside := us.(states := Messages(marked) + [item], bySource := us.bySource + there);
      && after.Valid() && Projects(after, beside, side) && Rank(after.states, |ts.states|) == |us.states|
  {
    hide Messages, Rank, IndexProjects, TargetsKept;
    Appended(ts.states, marked, item);
    Appended(marked, marked, item);
    IndexGrows(ts, us.bySource, marked + [item], index, there, side);
    TargetsGrow(ts.states, marked, item, side);
  }

  lemma MessageCreates(ts: TurnState, us: TurnState, e: Event, aliases: Aliases, side: Side)
    requires ts.Valid() && us.Valid() && Projects(ts, us, side) && IsMessage(e) && Keeps(e, aliases, side)
    ensures Projects(Created(ts, UiTypeOf(e).value, e, aliases), Created(us, UiTypeOf(e).value, e, aliases), side)
    ensures var after := Created(ts, UiTypeOf(e).value, e, aliases);
      after.states[|ts.states|].uiType.IsMessage() && Rank(after.states, |ts.states|) == |us.states|
  {
    hide Messages, Created, EventKeys, InitialIds, Rank, IndexProjects;
    var ui := UiTypeOf(e).value;
    var item, index := CreatedParts(ts, ui, e, aliases);
    var same, there := CreatedParts(us, ui, e, aliases);
    var marked := Marked(ts.states, ui, e.source);
    MarkedMessages(ts.states, ui, e.source);
    assert item == same;
    MessageAdded(ts, us, marked, item, index, there, side);
  }

  /** A message event does the same to the messages alone. */
  lemma MessageStep(ts: TurnState, us: TurnState, e: Event, aliases: Aliases, turn: string, side: Side)
    requires ts.Valid() && us.Valid() && Projects(ts, us, side) && IsMessage(e) && Keeps(e, aliases, side)
    ensures Projects(Apply(ts, e, aliases, turn), Apply(us, e, aliases, turn), side)
  {
    hide Projects, Keeps, FindOwn, FindCross, Claimed, Suggested, Created, Filled, Messages, Rank;
    var ui := UiTypeOf(e).value;
    MessageFoundOwn(ts, us, e, aliases, side);
    MessageFoundCross(ts, us, e, side);
    var own, cross := FindOwn(ts, ui, e), FindCross(ts, ui, e);
    var (placed, i) := Placed(ts, ui, e, aliases, turn);
    var (beside, r) := Placed(us, ui, e, aliases, turn);
    if own.Some? {
      MessageClaims(ts, us, i, e, aliases, side);
    } else if cross.Some? {
      MessageClaims(ts, us, i, e, aliases, side);
      MessageSuggests(Claimed(ts, i, e), Claimed(us, r, e), i, e, turn, side);
    } else {
      MessageCreates(ts, us, e, aliases, side);
    }
    MessageFills(placed, beside, i, e, side);
  }

  /** The messages of a turn, its status and the suggestions for its messages are those of its spoken events alone. */
  lemma {:induction false} ProjectFold(events: seq<Event>, aliases: Aliases, turn: string, side: Side)
    requires forall e | e in events :: Keeps(e, aliases, side)
    ensures Projects(TurnFold(NEW_TURN, events, aliases, turn), TurnFold(NEW_TURN, Spoken(events), aliases, turn), side)
    decreases |events|
  {
    hide Apply, Projects, Keeps;
    if events == [] {
      NothingProjects(side);
    } else {
      var front, e := events[..|events| - 1], events[|events| - 1];
      assert e in events;
      ProjectFold(front, aliases, turn, side);
      var ts, us := TurnFold(NEW_TURN, front, aliases, turn), TurnFold(NEW_TURN, Spoken(front), aliases, turn);
      if IsTool(e) {
        assert Spoken(events) == Spoken(front);
        ToolStep(ts, us, e, aliases, turn, side);
      } else {
        assert (Spoken(front) + [e])[..|Spoken(front)|] == Spoken(front);
        if IsMessage(e) {
          MessageStep(ts, us, e, aliases, turn, side);
        } else {
          QuietProjects(ts, us, e, aliases, turn, side);
        }
      }
    }
  }

  lemma NothingProjects(side: Side)
    ensures Projects(NEW_TURN, NEW_TURN, side) && Spoken([]) == []
  {
  }

  lemma QuietProjects(ts: TurnState, us: TurnState, e: Event, aliases: Aliases, turn: string, side: Side)
    requires ts.Valid() && us.Valid() && Projects(ts, us, side) && UiTypeOf(e).None?
    ensures Projects(Apply(ts, e, aliases, turn), Apply(us, e, aliases, turn), side)
  {
    hide Messages, Rank;
  }

  // ----- turns whose tools have ids of their own -----

  /** No tool event shares a key with a message event. */
  ghost predicate Separate(events: seq<Event>, aliases: Aliases) {
    forall m, t | m in events && t in events && IsMessage(m) && IsTool(t) :: EventKeys(m, aliases) !! EventKeys(t, aliases)
  }

  ghost function SideOf(events: seq<Event>, aliases: Aliases): Side {
    Side(set m, key | m in events && IsMessage(m) && key in EventKeys(m, aliases) :: key, MessageIds(events))
  }

  /** The event ids of a turn's messages; a message's item is known by one of them. */
  function MessageIds(events: seq<Event>): set<string> {
    set m | m in events && IsMessage(m) :: m.eventId
  }

  lemma SideKeeps(events: seq<Event>, aliases: Aliases)
    requires Ordered(events) && Separate(events, aliases)
    ensures forall e | e in events :: Keeps(e, aliases, SideOf(events, aliases))
  {
    hide IsMessage, IsTool, EventKeys, UiTypeOf;
    forall e | e in events ensures Keeps(e, aliases, SideOf(events, aliases)) {
      NotBoth(e);
      forall m | m in events && IsMessage(m) && IsTool(e) ensures m.eventId != e.eventId {
        NotBoth(m);
        var i :| 0 <= i < |events| && events[i] == m;
        var j :| 0 <= j < |events| && events[j] == e;
      }
    }
  }

  lemma NotBoth(e: Event)
    ensures !(IsMessage(e) && IsTool(e))
  {
  }

  lemma {:induction false} SpokenOrdered(events: seq<Event>)
    requires Ordered(events)
    ensures Ordered(Spoken(events))
  {
    if events != [] {
      hide IsTool, Ordered;
      var front, last := events[..|events| - 1], events[|events| - 1];
      assert events == front + [last];
      OrderedFront(front, last);
      SpokenOrdered(front);
      if !IsTool(last) {
        OrderedSnoc(Spoken(front), last);
      }
    }
  }

  lemma OrderedFront(front: seq<Event>, last: Event)
    requires Ordered(front + [last])
    ensures Ordered(front)
    ensures forall e | e in front :: e.sequence < last.sequence && e.eventId != last.eventId && e.dedupKey != last.dedupKey
  {
    var all := front + [last];
    assert forall i | 0 <= i < |front| :: all[i] == front[i];
    assert all[|front|] == last;
  }

  lemma OrderedSnoc(front: seq<Event>, last: Event)
    requires Ordered(front)
    requires forall e | e in front :: e.sequence < last.sequence && e.eventId != last.eventId && e.dedupKey != last.dedupKey
    ensures Ordered(front + [last])
  {
  }

  lemma {:induction false} SpokenConcat(left: seq<Event>, right: seq<Event>)
    ensures Spoken(left + right) == Spoken(left) + Spoken(right)
    decreases |right|
  {
    if right == [] {
      assert left + right == left;
    } else {
      var n := |right| - 1;
      assert (left + right)[..|left + right| - 1] == left + right[..n];
      SpokenConcat(left, right[..n]);
    }
  }

  lemma {:induction false} SpokenAll(events: seq<Event>)
    requires forall e | e in events :: !IsTool(e)
    ensures Spoken(events) == events
  {
    if events != [] {
      var n := |events| - 1;
      assert events == events[..n] + [events[n]] && events[n] in events;
      SpokenAll(events[..n]);
    }
  }

  // ----- the finished items -----

  /** The finished items that are messages. */
  function MessageItems(items: seq<Item>): seq<Item> {
    if items == [] then []
    else
      var last := items[|items| - 1];
      MessageItems(items[..|items| - 1]) + if last.uiType.IsMessage() then [last] else []
  }

  function ShownAll(states: seq<ItemState>, thread: string, turn: string): (r: seq<Item>)
    ensures |r| == |states| && forall i | 0 <= i < |r| :: r[i] == Shown(states[i], thread, turn)
  {
    seq(|states|, i requires 0 <= i < |states| => Shown(states[i], thread, turn))
  }

  lemma {:induction false} ShownMessages(states: seq<ItemState>, thread: string, turn: string)
    ensures MessageItems(ShownAll(states, thread, turn)) == ShownAll(Messages(states), thread, turn)
  {
    if states != [] {
      hide Shown;
      var n := |states| - 1;
      ShownMessages(states[..n], thread, turn);
      assert ShownAll(states, thread, turn)[..n] == ShownAll(states[..n], thread, turn);
      ShownType(states[n], thread, turn);
    }
  }

  lemma ShownType(s: ItemState, thread: string, turn: string)
    ensures Shown(s, thread, turn).uiType == s.uiType
  {
  }

  lemma {:induction false} MessagesAll(states: seq<ItemState>)
    requires forall s | s in states :: s.uiType.IsMessage()
    ensures Messages(states) == states
  {
    if states != [] {
      var n := |states| - 1;
      assert states == states[..n] + [states[n]] && states[n] in states;
      MessagesAll(states[..n]);
    }
  }
}
