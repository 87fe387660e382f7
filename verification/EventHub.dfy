/** `EventHub`: in-memory fan-out with bounded queues, one topic per owner and thread. */
module EventHub {
  import opened Records

  datatype EventEnvelope = EventEnvelope(
    sequence: nat, threadId: string, turnId: Option<string>, eventType: string, methodName: string, data: Data)

  /** What a subscriber's queue holds: an event, or the marker that events were dropped. */
  datatype Item = Live(event: EventEnvelope) | Resync

  datatype Subscription = Subscription(
    queue: seq<Item>, initialEvents: seq<EventEnvelope>, resyncRequired: bool, closed: bool)

  datatype Limits = Limits(history: nat, queue: nat)
  {
    predicate Valid() {
      history >= 1 && queue >= 1
    }
  }

  /** One thread's events. A subscription's identity is its number; `subscribers` are the registered ones. */
  datatype Topic = Topic(
    history: seq<EventEnvelope>, sequence: nat, subscribers: set<nat>, subscriptions: map<nat, Subscription>)
  {
    ghost predicate Sound(nextId: nat) {
      subscribers <= subscriptions.Keys && forall id | id in subscriptions :: id < nextId
    }
  }

  const NO_EVENTS := Topic([], 0, {}, map[])

  function Recent<T>(items: seq<T>, limit: nat): seq<T> {
    if |items| <= limit then items else items[|items| - limit..]
  }

  /** Putting an event into one queue; a full queue is emptied down to the marker and closed. */
  function Deliver(s: Subscription, event: EventEnvelope, limit: nat): Subscription {
    if |s.queue| < limit then s.(queue := s.queue + [Live(event)])
    else s.(closed := true, queue := [Resync])
  }

  function Overflowing(t: Topic, limit: nat): set<nat> {
    set id | id in t.subscribers && id in t.subscriptions && |t.subscriptions[id].queue| >= limit
  }

  /** One event to every registered subscriber at once. */
  function Published(t: Topic, event: EventEnvelope, limits: Limits): Topic {
    Topic(Recent(t.history + [event], limits.history), event.sequence,
          t.subscribers - Overflowing(t, limits.queue), OfferedTo(t, t.subscribers, event, limits.queue))
  }

  /** The queues after the event was offered to some of the subscribers. */
  function OfferedTo(t: Topic, done: set<nat>, event: EventEnvelope, limit: nat): map<nat, Subscription> {
    map id | id in t.subscriptions :: if id in done then Deliver(t.subscriptions[id], event, limit) else t.subscriptions[id]
  }

  lemma OfferedToOneMore(t: Topic, done: set<nat>, id: nat, event: EventEnvelope, limit: nat)
    requires id in t.subscriptions && id !in done
    ensures id in OfferedTo(t, done, event, limit) && OfferedTo(t, done, event, limit)[id] == t.subscriptions[id]
    ensures OfferedTo(t, done + {id}, event, limit)
      == OfferedTo(t, done, event, limit)[id := Deliver(t.subscriptions[id], event, limit)]
  {
  }

  lemma OfferedToNone(t: Topic, event: EventEnvelope, limit: nat)
    ensures OfferedTo(t, {}, event, limit) == t.subscriptions
  {
  }

  lemma OneMoreMember(full: set<nat>, done: set<nat>, id: nat)
    requires id !in done
    ensures id in full ==> full * (done + {id}) == full * done + {id} && |full * (done + {id})| == |full * done| + 1
    ensures id !in full ==> full * (done + {id}) == full * done
  {
  }

  /** The replay a new subscriber starts with, or the need to resynchronize. */
  function NewSubscription(t: Topic, after: Option<nat>): Subscription {
    match after
    case None => Subscription([], [], false, false)
    case Some(k) =>
      if k > t.sequence || (t.history != [] && k + 1 < t.history[0].sequence) then Subscription([], [], true, false)
      else Subscription([], Later(t.history, k), false, false)
  }

  function Later(events: seq<EventEnvelope>, k: nat): seq<EventEnvelope> {
    if events == [] then []
    else
      var last := events[|events| - 1];
      Later(events[..|events| - 1], k) + if last.sequence > k then [last] else []
  }

  lemma {:induction false} LaterAre(events: seq<EventEnvelope>, k: nat)
    ensures forall e :: e in Later(events, k) <==> e in events && e.sequence > k
  {
    if events != [] {
      LaterAre(events[..|events| - 1], k);
      assert events == events[..|events| - 1] + [events[|events| - 1]];
    }
  }

  function Subscribed(t: Topic, id: nat, after: Option<nat>): Topic {
    t.(subscribers := t.subscribers + {id}, subscriptions := t.subscriptions[id := NewSubscription(t, after)])
  }

  function Closed(t: Topic, id: nat): Topic {
    if id !in t.subscriptions then t
    else t.(subscribers := t.subscribers - {id},
            subscriptions := t.subscriptions[id := t.subscriptions[id].(closed := true)])
  }

  function Taken(t: Topic, id: nat): Topic {
    if id !in t.subscriptions || t.subscriptions[id].queue == [] then t
    else t.(subscriptions := t.subscriptions[id := t.subscriptions[id].(queue := t.subscriptions[id].queue[1..])])
  }

  function Advanced(t: Topic, sequence: nat): Topic {
    if sequence > t.sequence then t.(sequence := sequence) else t
  }

  /** Topics are kept apart by owner and thread. */
  datatype TopicKey = TopicKey(owner: Option<string>, thread: string)

  class EventHub {
    const limits: Limits
    var threads: map<TopicKey, Topic>
    var nextId: nat
    var dropped: nat

    function TopicOf(key: TopicKey): Topic
      reads this
    {
      if key in threads then threads[key] else NO_EVENTS
    }

    /** Subscriptions are numbered from 0, each belongs to one topic, and registered ones exist. */
    ghost predicate Valid()
      reads this
    {
      && limits.Valid()
      && forall key :: TopicOf(key).Sound(nextId)
    }

    /** Changing one topic soundly keeps the hub sound. */
    twostate lemma OneTopicSound(key: TopicKey)
      requires old(Valid()) && OnlyTopic(key) && nextId >= old(nextId) && TopicOf(key).Sound(nextId)
      ensures Valid()
    {
      forall k ensures TopicOf(k).Sound(nextId) {
        assert old(TopicOf(k).Sound(nextId));
        assert k != key ==> TopicOf(k) == old(TopicOf(k));
      }
    }

    /** No other topic is touched. */
    twostate predicate OnlyTopic(key: TopicKey)
      reads this
    {
      forall k | k != key :: TopicOf(k) == old(TopicOf(k))
    }

    /** A new event goes last, and only the oldest events go when there are too many. */
    ghost predicate KeepsLast(before: seq<EventEnvelope>, event: EventEnvelope, after: seq<EventEnvelope>) {
      && |after| == (if |before| < limits.history then |before| + 1 else limits.history)
      && exists cut | 0 <= cut <= |before| :: after == before[cut..] + [event]
    }

    /** A subscriber with room gets the event; a full one loses its queue for the marker and is dropped; others are not touched. */
    ghost predicate WasOffered(before: Topic, after: Topic, id: nat, event: EventEnvelope)
      requires id in before.subscriptions && id in after.subscriptions
    {
      var s, t := before.subscriptions[id], after.subscriptions[id];
      && t.initialEvents == s.initialEvents && t.resyncRequired == s.resyncRequired
      && if id !in before.subscribers then t == s && id !in after.subscribers
         else if |s.queue| < limits.queue then t.queue == s.queue + [Live(event)] && t.closed == s.closed && id in after.subscribers
         else t.queue == [Resync] && t.closed && id !in after.subscribers
    }

    /** What a publish does, subscriber by subscriber. */
    ghost predicate Reaches(before: Topic, event: EventEnvelope, after: Topic) {
      && after.sequence == event.sequence && KeepsLast(before.history, event, after.history)
      && forall id | id in before.subscriptions :: id in after.subscriptions && WasOffered(before, after, id, event)
    }

    lemma PublishedReaches(before: Topic, event: EventEnvelope)
      requires limits.Valid()
      ensures Reaches(before, event, Published(before, event, limits))
    {
      var n := |before.history|;
      var cut := if n < limits.history then 0 else n + 1 - limits.history;
      assert Recent(before.history + [event], limits.history) == before.history[cut..] + [event];
    }

    constructor (limits: Limits)
      requires limits.Valid()
      ensures Valid() && this.limits == limits && forall key :: TopicOf(key) == NO_EVENTS
    {
      this.limits, threads, nextId, dropped := limits, map[], 0, 0;
    }

    /** Numbers or checks the event and offers it to every registered subscriber. */
    method Publish(key: TopicKey, turnId: Option<string>, eventType: string, methodName: string, data: Data,
                   sequence: Option<nat>)
      returns (r: Option<EventEnvelope>)
      requires Valid()
      modifies this
      ensures Valid() && OnlyTopic(key) && nextId == old(nextId)
      ensures r.None? <==> sequence.Some? && sequence.value <= old(TopicOf(key)).sequence
      ensures r.None? ==> TopicOf(key) == old(TopicOf(key)) && dropped == old(dropped)
      ensures r.Some? ==> r.value == EventEnvelope(
        if sequence.Some? then sequence.value else old(TopicOf(key)).sequence + 1, key.thread, turnId, eventType, methodName, data)
      ensures r.Some? ==> Reaches(old(TopicOf(key)), r.value, TopicOf(key))
      ensures r.Some? ==> TopicOf(key) == Published(old(TopicOf(key)), r.value, limits)
      ensures r.Some? ==> dropped == old(dropped) + |old(TopicOf(key)).subscribers - TopicOf(key).subscribers|
    {
      hide Reaches, Recent;
      var state := TopicOf(key);
      assert state.Sound(nextId);
      if sequence.Some? && sequence.value <= state.sequence {
        return None;
      }
      var number := if sequence.Some? then sequence.value else state.sequence + 1;
      var event := EventEnvelope(number, key.thread, turnId, eventType, methodName, data);
      var subscribers, subscriptions, lost := FanOut(state, event);
      dropped := dropped + lost;
      threads := threads[key := Topic(Recent(state.history + [event], limits.history), number, subscribers, subscriptions)];
      OneTopicSound(key);
      PublishedReaches(state, event);
      assert state.subscribers - subscribers == Overflowing(state, limits.queue);
      r := Some(event);
    }

    /** The loop over the registered subscribers. */
    method FanOut(state: Topic, event: EventEnvelope)
      returns (subscribers: set<nat>, subscriptions: map<nat, Subscription>, lost: nat)
      requires state.subscribers <= state.subscriptions.Keys
      ensures subscribers == Published(state, event, limits).subscribers
      ensures subscriptions == Published(state, event, limits).subscriptions
      ensures lost == |Overflowing(state, limits.queue)|
    {
      hide OfferedTo;
      subscribers, subscriptions, lost := state.subscribers, state.subscriptions, 0;
      OfferedToNone(state, event, limits.queue);
      var pending := subscribers;
      ghost var full, done := Overflowing(state, limits.queue), {};
      while pending != {}
        invariant done !! pending && done + pending == state.subscribers
        invariant subscribers == state.subscribers - full * done && lost == |full * done|
        invariant subscriptions == OfferedTo(state, done, event, limits.queue)
        decreases |pending|
      {
        var id :| id in pending;
        OneMoreMember(full, done, id);
        OfferedToOneMore(state, done, id, event, limits.queue);
        var s := subscriptions[id];
        if |s.queue| < limits.queue {
          s := s.(queue := s.queue + [Live(event)]);
        } else {
          subscribers := subscribers - {id};
          lost := lost + 1;
          s := s.(closed := true, queue := [Resync]);
        }
        subscriptions := subscriptions[id := s];
        pending, done := pending - {id}, done + {id};
      }
      assert done == state.subscribers;
      assert full * done == full;
    }

    method Subscribe(key: TopicKey, after: Option<nat>) returns (id: nat)
      requires Valid()
      modifies this
      ensures Valid() && OnlyTopic(key) && dropped == old(dropped)
      ensures forall k :: id !in old(TopicOf(k)).subscriptions
      ensures TopicOf(key) == Subscribed(old(TopicOf(key)), id, after)
      ensures id in TopicOf(key).subscribers && TopicOf(key).subscribers == old(TopicOf(key)).subscribers + {id}
      ensures TopicOf(key).history == old(TopicOf(key)).history && TopicOf(key).sequence == old(TopicOf(key)).sequence
      ensures TopicOf(key).subscriptions[id].queue == [] && !TopicOf(key).subscriptions[id].closed
      ensures TopicOf(key).subscriptions[id].resyncRequired
        <==> after.Some? && (after.value > old(TopicOf(key)).sequence
                             || (old(TopicOf(key)).history != [] && old(TopicOf(key)).history[0].sequence > after.value + 1))
      ensures after.None? || TopicOf(key).subscriptions[id].resyncRequired ==> TopicOf(key).subscriptions[id].initialEvents == []
      ensures forall other | other in old(TopicOf(key)).subscriptions ::
        other in TopicOf(key).subscriptions && TopicOf(key).subscriptions[other] == old(TopicOf(key)).subscriptions[other]
      ensures after.Some? && !TopicOf(key).subscriptions[id].resyncRequired ==> forall e ::
        e in TopicOf(key).subscriptions[id].initialEvents <==> e in old(TopicOf(key)).history && e.sequence > after.value
    {
      if after.Some? {
        LaterAre(TopicOf(key).history, after.value);
      }
      forall k ensures nextId !in TopicOf(k).subscriptions {
        assert TopicOf(k).Sound(nextId);
      }
      assert TopicOf(key).Sound(nextId);
      id := nextId;
      nextId := nextId + 1;
      threads := threads[key := Subscribed(TopicOf(key), id, after)];
      OneTopicSound(key);
    }

    method Close(key: TopicKey, id: nat)
      requires Valid()
      modifies this
      ensures Valid() && OnlyTopic(key) && dropped == old(dropped)
      ensures TopicOf(key) == Closed(old(TopicOf(key)), id)
      ensures TopicOf(key).subscriptions.Keys == old(TopicOf(key)).subscriptions.Keys
      ensures id !in TopicOf(key).subscribers && TopicOf(key).subscribers == old(TopicOf(key)).subscribers - {id}
      ensures id in TopicOf(key).subscriptions ==>
        TopicOf(key).subscriptions[id].closed && TopicOf(key).subscriptions[id].queue == old(TopicOf(key)).subscriptions[id].queue
    {
      if key in threads {
        assert TopicOf(key).Sound(nextId);
        threads := threads[key := Closed(threads[key], id)];
      }
      OneTopicSound(key);
    }

    /** The next queued item; `None` when the caller would have to wait. */
    method NextEvent(key: TopicKey, id: nat) returns (item: Option<Item>)
      requires Valid()
      modifies this
      ensures Valid() && OnlyTopic(key) && dropped == old(dropped)
      ensures TopicOf(key) == Taken(old(TopicOf(key)), id)
      ensures item == if id in old(TopicOf(key)).subscriptions && old(TopicOf(key)).subscriptions[id].queue != []
                      then Some(old(TopicOf(key)).subscriptions[id].queue[0]) else None
      ensures item.None? ==> TopicOf(key) == old(TopicOf(key))
      ensures item.Some? ==>
        id in TopicOf(key).subscriptions && TopicOf(key).subscriptions[id].queue == old(TopicOf(key)).subscriptions[id].queue[1..]
    {
      var state := TopicOf(key);
      if id !in state.subscriptions || state.subscriptions[id].queue == [] {
        return None;
      }
      item := Some(state.subscriptions[id].queue[0]);
      assert state.Sound(nextId);
      threads := threads[key := Taken(state, id)];
      OneTopicSound(key);
    }

    method CurrentSequence(key: TopicKey) returns (sequence: nat)
      ensures sequence == TopicOf(key).sequence
    {
      sequence := TopicOf(key).sequence;
    }

    method AdvanceSequence(key: TopicKey, sequence: nat)
      requires Valid()
      modifies this
      ensures Valid() && OnlyTopic(key) && dropped == old(dropped)
      ensures TopicOf(key) == Advanced(old(TopicOf(key)), sequence)
      ensures TopicOf(key).sequence >= sequence && TopicOf(key).sequence >= old(TopicOf(key)).sequence
      ensures TopicOf(key).sequence == sequence || TopicOf(key).sequence == old(TopicOf(key)).sequence
      ensures TopicOf(key).subscriptions == old(TopicOf(key)).subscriptions && TopicOf(key).history == old(TopicOf(key)).history
    {
      assert TopicOf(key).Sound(nextId);
      threads := threads[key := Advanced(TopicOf(key), sequence)];
      OneTopicSound(key);
    }
  }

  // ----- every run of one topic -----

  datatype TopicAction =
    | Offer(event: EventEnvelope)
    | Join(id: nat, after: Option<nat>)
    | Take(id: nat)
    | Leave(id: nat)
    | Align(sequence: nat)

  function PerformOnTopic(t: Topic, a: TopicAction, limits: Limits): Topic {
    match a
    case Offer(event) => if event.sequence > t.sequence then Published(t, event, limits) else t
    case Join(id, after) => if id in t.subscriptions then t else Subscribed(t, id, after)
    case Take(id) => Taken(t, id)
    case Leave(id) => Closed(t, id)
    case Align(sequence) => Advanced(t, sequence)
  }

  function RunTopic(actions: seq<TopicAction>, limits: Limits): Topic {
    if actions == [] then NO_EVENTS
    else PerformOnTopic(RunTopic(actions[..|actions| - 1], limits), actions[|actions| - 1], limits)
  }

  /** The events accepted by the topic since the subscriber appeared. */
  function PublishedSince(actions: seq<TopicAction>, id: nat, limits: Limits): seq<EventEnvelope> {
    if actions == [] then []
    else
      var n := |actions| - 1;
      var t := RunTopic(actions[..n], limits);
      var earlier := PublishedSince(actions[..n], id, limits);
      if actions[n].Offer? && actions[n].event.sequence > t.sequence && id in t.subscriptions
      then earlier + [actions[n].event] else earlier
  }

  /** The items the subscriber has taken. */
  function ConsumedBy(actions: seq<TopicAction>, id: nat, limits: Limits): seq<Item> {
    if actions == [] then []
    else
      var n := |actions| - 1;
      var t := RunTopic(actions[..n], limits);
      var earlier := ConsumedBy(actions[..n], id, limits);
      if actions[n] == Take(id) && id in t.subscriptions && t.subscriptions[id].queue != []
      then earlier + [t.subscriptions[id].queue[0]] else earlier
  }

  function LiveItems(events: seq<EventEnvelope>): (items: seq<Item>)
    ensures |items| == |events| && forall i | 0 <= i < |items| :: items[i] == Live(events[i])
  {
    seq(|events|, i requires 0 <= i < |events| => Live(events[i]))
  }

  /** A subscriber is open, has left while it was open, or was dropped because its queue was full. */
  datatype Standing = Open | Left | Dropped

  /** Left is what becomes of an open subscriber by its own leave, and nothing else. */
  function StandingOf(actions: seq<TopicAction>, id: nat, limits: Limits): Standing {
    if id in RunTopic(actions, limits).subscribers then Open
    else if HasLeft(actions, id, limits) then Left
    else Dropped
  }

  predicate HasLeft(actions: seq<TopicAction>, id: nat, limits: Limits) {
    actions != [] && (
      || HasLeft(actions[..|actions| - 1], id, limits)
      || (actions[|actions| - 1] == Leave(id) && id in RunTopic(actions[..|actions| - 1], limits).subscribers))
  }

  /** What a subscriber has consumed and still holds, against what was published since it came. */
  ghost predicate Accounted(standing: Standing, queue: seq<Item>, consumed: seq<Item>, published: seq<EventEnvelope>) {
    match standing
    case Open => consumed + queue == LiveItems(published)
    case Left => exists k | 0 <= k <= |published| :: consumed + queue == LiveItems(published[..k])
    case Dropped => exists k | 0 <= k <= |published| :: OneMarkerLeft(queue, consumed, published[..k])
  }

  /** A prefix was consumed, and the one resync marker is all there is, queued or already taken. */
  ghost predicate OneMarkerLeft(queue: seq<Item>, consumed: seq<Item>, before: seq<EventEnvelope>) {
    || (queue == [Resync] && consumed == LiveItems(before))
    || (queue == [] && consumed == LiveItems(before) + [Resync])
  }

  /** The events and items one action adds for a subscriber that is already there. */
  function PublishedBy(t: Topic, a: TopicAction): seq<EventEnvelope> {
    if a.Offer? && a.event.sequence > t.sequence then [a.event] else []
  }

  function TakenBy(t: Topic, a: TopicAction, id: nat): seq<Item> {
    if a == Take(id) && id in t.subscriptions && t.subscriptions[id].queue != [] then [t.subscriptions[id].queue[0]] else []
  }

  /** How one action changes a subscriber's standing. */
  function StandingAfter(t: Topic, a: TopicAction, id: nat, standing: Standing, limits: Limits): Standing {
    if id in PerformOnTopic(t, a, limits).subscribers then Open
    else if standing == Left || (a == Leave(id) && id in t.subscribers) then Left
    else Dropped
  }

  lemma StepAccounted(
      t: Topic, a: TopicAction, id: nat, standing: Standing, consumed: seq<Item>, published: seq<EventEnvelope>, limits: Limits)
    requires id in t.subscriptions && (standing == Open <==> id in t.subscribers)
    requires Accounted(standing, t.subscriptions[id].queue, consumed, published)
    ensures var after := PerformOnTopic(t, a, limits);
      && id in after.subscriptions
      && Accounted(StandingAfter(t, a, id, standing, limits), after.subscriptions[id].queue,
                   consumed + TakenBy(t, a, id), published + PublishedBy(t, a))
  {
    hide Accounted, Recent, NewSubscription;
    var queue := t.subscriptions[id].queue;
    assert published + [] == published && consumed + [] == consumed;
    if a.Offer? && a.event.sequence > t.sequence {
      AccountedPublish(standing, queue, consumed, published, a.event, limits.queue);
    } else if a == Take(id) && queue != [] {
      AccountedTake(standing, queue, consumed, published);
    } else if a == Leave(id) && standing == Open {
      AccountedLeave(queue, consumed, published);
    }
  }

  lemma AccountedTake(standing: Standing, queue: seq<Item>, consumed: seq<Item>, published: seq<EventEnvelope>)
    requires Accounted(standing, queue, consumed, published) && queue != []
    ensures Accounted(standing, queue[1..], consumed + [queue[0]], published)
  {
    assert consumed + [queue[0]] + queue[1..] == consumed + queue;
    if standing == Dropped {
      var k :| 0 <= k <= |published| && OneMarkerLeft(queue, consumed, published[..k]);
      assert OneMarkerLeft(queue[1..], consumed + [queue[0]], published[..k]);
    }
  }

  lemma AccountedLeave(queue: seq<Item>, consumed: seq<Item>, published: seq<EventEnvelope>)
    requires Accounted(Open, queue, consumed, published)
    ensures Accounted(Left, queue, consumed, published)
  {
    assert published[..|published|] == published;
  }

  lemma RunTopicSnoc(actions: seq<TopicAction>, id: nat, limits: Limits)
    requires actions != []
    ensures var n := |actions| - 1;
      var t := RunTopic(actions[..n], limits);
      && RunTopic(actions, limits) == PerformOnTopic(t, actions[n], limits)
      && ConsumedBy(actions, id, limits) == ConsumedBy(actions[..n], id, limits) + TakenBy(t, actions[n], id)
      && PublishedSince(actions, id, limits)
         == PublishedSince(actions[..n], id, limits) + (if id in t.subscriptions then PublishedBy(t, actions[n]) else [])
      && (HasLeft(actions, id, limits)
          <==> HasLeft(actions[..n], id, limits) || (actions[n] == Leave(id) && id in t.subscribers))
  {
    hide PerformOnTopic;
  }

  lemma NewcomerAccounted(t: Topic, a: TopicAction, id: nat, limits: Limits)
    requires t.subscribers <= t.subscriptions.Keys && id !in t.subscriptions
    ensures var after := PerformOnTopic(t, a, limits);
      id in after.subscriptions ==> id in after.subscribers && Accounted(Open, after.subscriptions[id].queue, [], [])
  {
  }

  lemma SubscribersKnown(t: Topic, a: TopicAction, limits: Limits)
    requires t.subscribers <= t.subscriptions.Keys
    ensures var after := PerformOnTopic(t, a, limits);
      after.subscribers <= after.subscriptions.Keys && t.subscriptions.Keys <= after.subscriptions.Keys
  {
  }

  /** Only a subscription opens a subscriber. */
  lemma NeverReopened(t: Topic, a: TopicAction, id: nat, limits: Limits)
    requires id in t.subscriptions && id !in t.subscribers
    ensures id !in PerformOnTopic(t, a, limits).subscribers
  {
  }

  /** In every run: an open subscriber's consumed and queued items are exactly the events published since it subscribed, in
      order; one that left holds the rest of a prefix of them; a dropped one consumed a prefix, and the only thing left to
      consume, or the last thing it consumed, is one resync marker. */
  lemma {:induction false} DeliveryAccounted(actions: seq<TopicAction>, id: nat, limits: Limits)
    requires limits.Valid()
    ensures var t := RunTopic(actions, limits);
      && t.subscribers <= t.subscriptions.Keys
      && if id in t.subscriptions then
           && (HasLeft(actions, id, limits) ==> id !in t.subscribers)
           && Accounted(StandingOf(actions, id, limits), t.subscriptions[id].queue,
                        ConsumedBy(actions, id, limits), PublishedSince(actions, id, limits))
         else
           ConsumedBy(actions, id, limits) == [] && PublishedSince(actions, id, limits) == [] && !HasLeft(actions, id, limits)
    decreases |actions|
  {
    hide PerformOnTopic, Accounted, PublishedBy, HasLeft;
    if actions == [] {
      NothingYet(id, limits);
    } else {
      var n := |actions| - 1;
      RunTopicSnoc(actions, id, limits);
      DeliveryAccounted(actions[..n], id, limits);
      var t := RunTopic(actions[..n], limits);
      SubscribersKnown(t, actions[n], limits);
      if id in t.subscriptions {
        StepAccounted(t, actions[n], id, StandingOf(actions[..n], id, limits),
                      ConsumedBy(actions[..n], id, limits), PublishedSince(actions[..n], id, limits), limits);
        StandingMoves(t, actions, id, limits);
      } else {
        NewcomerAccounted(t, actions[n], id, limits);
      }
    }
  }

  lemma NothingYet(id: nat, limits: Limits)
    ensures RunTopic([], limits) == NO_EVENTS && ConsumedBy([], id, limits) == [] && PublishedSince([], id, limits) == []
    ensures !HasLeft([], id, limits)
  {
  }

  lemma StandingMoves(t: Topic, actions: seq<TopicAction>, id: nat, limits: Limits)
    requires actions != [] && t == RunTopic(actions[..|actions| - 1], limits) && id in t.subscriptions
    requires HasLeft(actions[..|actions| - 1], id, limits) ==> id !in t.subscribers
    ensures StandingOf(actions, id, limits)
      == StandingAfter(t, actions[|actions| - 1], id, StandingOf(actions[..|actions| - 1], id, limits), limits)
    ensures HasLeft(actions, id, limits) ==> id !in RunTopic(actions, limits).subscribers
  {
    hide PerformOnTopic, HasLeft;
    var n := |actions| - 1;
    RunTopicSnoc(actions, id, limits);
    LeaveCloses(t, id, limits);
    if id !in t.subscribers {
      NeverReopened(t, actions[n], id, limits);
    }
  }

  lemma LeaveCloses(t: Topic, id: nat, limits: Limits)
    requires id in t.subscriptions
    ensures id !in PerformOnTopic(t, Leave(id), limits).subscribers
  {
  }

  lemma AccountedPublish(standing: Standing, queue: seq<Item>, consumed: seq<Item>, published: seq<EventEnvelope>,
                         event: EventEnvelope, limit: nat)
    requires Accounted(standing, queue, consumed, published)
    ensures standing != Open ==> Accounted(standing, queue, consumed, published + [event])
    ensures standing == Open && |queue| < limit ==> Accounted(Open, queue + [Live(event)], consumed, published + [event])
    ensures standing == Open && |queue| >= limit ==> Accounted(Dropped, [Resync], consumed, published + [event])
  {
    var more := published + [event];
    match standing
    case Open =>
      assert consumed + (queue + [Live(event)]) == LiveItems(more);
      assert consumed == LiveItems(more[..|consumed|]);
      assert OneMarkerLeft([Resync], consumed, more[..|consumed|]);
    case Left =>
      var k :| 0 <= k <= |published| && consumed + queue == LiveItems(published[..k]);
      assert more[..k] == published[..k];
    case Dropped =>
      var k :| 0 <= k <= |published| && OneMarkerLeft(queue, consumed, published[..k]);
      assert more[..k] == published[..k];
  }

  // ----- what a subscription starts with -----

  /** Every event the topic has accepted. */
  function Accepted(actions: seq<TopicAction>, limits: Limits): seq<EventEnvelope> {
    if actions == [] then []
    else
      var n := |actions| - 1;
      Accepted(actions[..n], limits) + PublishedBy(RunTopic(actions[..n], limits), actions[n])
  }

  /** The history is the end of what was accepted, and that is in sequence order. */
  ghost predicate Retains(t: Topic, accepted: seq<EventEnvelope>, limits: Limits) {
    && t.history == Recent(accepted, limits.history)
    && (forall e | e in accepted :: e.sequence <= t.sequence)
    && forall i, j | 0 <= i < j < |accepted| :: accepted[i].sequence < accepted[j].sequence
  }

  lemma OfferRetains(t: Topic, accepted: seq<EventEnvelope>, event: EventEnvelope, limits: Limits)
    requires limits.Valid() && Retains(t, accepted, limits) && event.sequence > t.sequence
    ensures Retains(Published(t, event, limits), accepted + [event], limits)
  {
    hide OfferedTo, Overflowing;
  }

  lemma OtherRetains(t: Topic, accepted: seq<EventEnvelope>, a: TopicAction, limits: Limits)
    requires Retains(t, accepted, limits) && PublishedBy(t, a) == []
    ensures Retains(PerformOnTopic(t, a, limits), accepted, limits)
  {
    hide NewSubscription, Recent;
  }

  lemma {:induction false} RunRetains(actions: seq<TopicAction>, limits: Limits)
    requires limits.Valid()
    ensures Retains(RunTopic(actions, limits), Accepted(actions, limits), limits)
  {
    if actions != [] {
      hide Retains, Published, Subscribed, Taken, Closed, Advanced;
      var n := |actions| - 1;
      var t, accepted := RunTopic(actions[..n], limits), Accepted(actions[..n], limits);
      RunRetains(actions[..n], limits);
      if PublishedBy(t, actions[n]) == [] {
        assert Accepted(actions, limits) == accepted;
        OtherRetains(t, accepted, actions[n], limits);
      } else {
        OfferRetains(t, accepted, actions[n].event, limits);
      }
    }
  }

  lemma RetainsAfter(t: Topic, accepted: seq<EventEnvelope>, e: EventEnvelope, k: nat, limits: Limits)
    requires limits.Valid() && Retains(t, accepted, limits) && t.history != [] && t.history[0].sequence <= k + 1
    requires e in accepted && e.sequence > k
    ensures e in t.history
  {
    var i :| 0 <= i < |accepted| && accepted[i] == e;
    var cut := if |accepted| <= limits.history then 0 else |accepted| - limits.history;
    assert t.history == accepted[cut..] && accepted[cut] == t.history[0];
    if i >= cut {
      assert t.history[i - cut] == e;
    }
  }

  /** In every run, a subscriber that need not resynchronize starts with every event ever accepted after its cursor. */
  lemma SubscribeMissesNothing(actions: seq<TopicAction>, k: nat, limits: Limits)
    requires limits.Valid()
    ensures var s := NewSubscription(RunTopic(actions, limits), Some(k));
      !s.resyncRequired ==> forall e :: e in s.initialEvents <==> e in Accepted(actions, limits) && e.sequence > k
  {
    hide RunTopic, Accepted, Later;
    var t, accepted := RunTopic(actions, limits), Accepted(actions, limits);
    RunRetains(actions, limits);
    LaterAre(t.history, k);
    if t.history != [] && t.history[0].sequence <= k + 1 {
      forall e | e in accepted && e.sequence > k ensures e in t.history {
        RetainsAfter(t, accepted, e, k, limits);
      }
    }
  }
}
