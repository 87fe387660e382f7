/** No interleaving makes a connection skip, repeat or reorder records. */
module DeliveryTheorems {
  import opened Records
  import opened EventHub
  import opened Delivery

  ghost predicate Numbered(journal: seq<Event>) {
    forall i | 0 <= i < |journal| :: journal[i].sequence == i + 1
  }

  // ----- the replay is the rest of the journal -----

  lemma EnvelopesSnoc(events: seq<Event>, last: Event)
    ensures Envelopes(events + [last]) == Envelopes(events) + [Envelope(last)]
  {
  }

  lemma LaterSnoc(events: seq<EventEnvelope>, last: EventEnvelope, k: nat)
    ensures Later(events + [last], k) == Later(events, k) + if last.sequence > k then [last] else []
  {
  }

  lemma NoEnvelopes(k: nat)
    ensures Envelopes([]) == [] && Later([], k) == []
  {
  }

  lemma {:induction false} LaterIsSuffix(read: seq<Event>, k: nat)
    requires Numbered(read)
    ensures Later(Envelopes(read), k) == if k <= |read| then Envelopes(read[k..]) else []
  {
    hide Later, Envelopes;
    if read == [] {
      NoEnvelopes(k);
    } else {
      var n := |read| - 1;
      var front, last := read[..n], read[n];
      assert read == front + [last];
      EnvelopesSnoc(front, last);
      LaterSnoc(Envelopes(front), Envelope(last), k);
      LaterIsSuffix(front, k);
      if k <= n {
        assert read[k..] == front[k..] + [last];
        EnvelopesSnoc(front[k..], last);
      } else if k == n + 1 {
        assert read[k..] == [] && front[n..] == [];
        NoEnvelopes(k);
      }
    }
  }

  lemma {:induction false} BySequenceOf(initial: seq<EventEnvelope>, read: seq<Event>, k: nat, j: nat)
    requires Numbered(read) && k <= j <= |read|
    requires forall e | e in initial :: k < e.sequence <= |read|
    ensures var m := BySequence(initial + Envelopes(read[k..j]));
      && (forall key | key in m :: k < key <= |read|)
      && (forall key | k < key <= j :: key in m && m[key] == Envelope(read[key - 1]))
    decreases j - k, |initial|
  {
    hide BySequence;
    var all := initial + Envelopes(read[k..j]);
    if k < j {
      BySequenceSnoc(initial + Envelopes(read[k..j - 1]), Envelope(read[j - 1]));
      assert all == initial + Envelopes(read[k..j - 1]) + [Envelope(read[j - 1])];
      BySequenceOf(initial, read, k, j - 1);
    } else if initial != [] {
      var n := |initial| - 1;
      BySequenceSnoc(initial[..n], initial[n]);
      assert initial[..n] + Envelopes(read[k..j]) == initial[..n];
      assert all == initial[..n] + [initial[n]];
      BySequenceOf(initial[..n], read, k, j);
    } else {
      assert all == [];
      BySequenceEmpty();
    }
  }

  lemma BySequenceEmpty()
    ensures BySequence([]) == map[] && MaxSequence([]) == 0
  {
  }

  lemma BySequenceSnoc(events: seq<EventEnvelope>, last: EventEnvelope)
    ensures BySequence(events + [last]) == BySequence(events)[last.sequence := last]
  {
  }

  lemma AscendingSnoc(m: map<nat, EventEnvelope>, bound: nat)
    requires bound > 0
    ensures Ascending(m, bound) == Ascending(m, bound - 1) + if bound in m then [m[bound]] else []
    ensures Ascending(m, 0) == if 0 in m then [m[0]] else []
  {
  }

  lemma {:induction false} AscendingOf(m: map<nat, EventEnvelope>, read: seq<Event>, k: nat, bound: nat)
    requires bound <= |read| && k <= |read|
    requires forall key | key in m :: k < key <= |read|
    requires forall key | k < key <= |read| :: key in m && m[key] == Envelope(read[key - 1])
    ensures Ascending(m, bound) == if k <= bound then Envelopes(read[k..bound]) else []
  {
    hide Ascending, Envelopes;
    if bound == 0 {
      AscendingSnoc(m, 1);
      assert read[0..0] == [];
      NoEnvelopes(k);
    } else {
      AscendingSnoc(m, bound);
      AscendingOf(m, read, k, bound - 1);
      if k < bound {
        assert read[k..bound] == read[k..bound - 1] + [read[bound - 1]];
        EnvelopesSnoc(read[k..bound - 1], read[bound - 1]);
      } else if k == bound {
        assert read[k..bound] == [];
        NoEnvelopes(k);
      }
    }
  }

  lemma {:induction false} MaxSequenceOf(events: seq<EventEnvelope>)
    ensures forall e | e in events :: e.sequence <= MaxSequence(events)
    ensures events != [] ==> exists e :: e in events && e.sequence == MaxSequence(events)
  {
    if events != [] {
      var n := |events| - 1;
      MaxSequenceOf(events[..n]);
      assert events == events[..n] + [events[n]];
      assert events[n] in events;
      if events[n].sequence <= MaxSequence(events[..n]) && n > 0 {
        var e :| e in events[..n] && e.sequence == MaxSequence(events[..n]);
        assert e in events;
      }
    }
  }

  lemma ReplayBound(initial: seq<EventEnvelope>, read: seq<Event>, k: nat)
    requires Numbered(read) && k <= |read|
    requires forall e | e in initial :: k < e.sequence <= |read|
    ensures MaxSequence(initial + Envelopes(read[k..])) == if k < |read| then |read| else 0
  {
    hide MaxSequence;
    var rest := Envelopes(read[k..]);
    var all := initial + rest;
    MaxSequenceOf(all);
    if k < |read| {
      assert all[|all| - 1] in all && all[|all| - 1].sequence == |read|;
      var e :| e in all && e.sequence == MaxSequence(all);
      if e in rest {
        var i :| 0 <= i < |rest| && rest[i] == e;
        assert e.sequence == k + i + 1;
      }
    } else {
      assert all == [];
      BySequenceEmpty();
    }
  }

  /** Merging the hub's history into the journal's records changes nothing: the replay is the journal after the cursor. */
  lemma ReplayIsSuffix(initial: seq<EventEnvelope>, read: seq<Event>, k: nat)
    requires Numbered(read) && k <= |read|
    requires forall e | e in initial :: k < e.sequence <= |read|
    ensures MergedReplay(initial, read, Some(k)) == Envelopes(read[k..])
  {
    hide BySequence, Ascending, MaxSequence, Later;
    LaterIsSuffix(read, k);
    ReplayBound(initial, read, k);
    var all := initial + Envelopes(read[k..]);
    var m := BySequence(all);
    BySequenceOf(initial, read, k, |read|);
    assert read[k..|read|] == read[k..];
    assert m == BySequence(initial + Envelopes(read[k..|read|]));
    assert forall key | key in m :: k < key <= |read|;
    AscendingOf(m, read, k, if k < |read| then |read| else 0);
  }

  // ----- the invariant -----

  ghost predicate TopicOk(w: World) {
    && Numbered(w.journal)
    && (w.journal != [] ==> w.fileExists)
    && w.topic.sequence <= |w.journal|
    && w.topic.subscribers <= w.topic.subscriptions.Keys
    && (forall e | e in w.topic.history :: 1 <= e.sequence <= |w.journal|)
  }

  /** The journal position just before the first queued event. */
  function QueueStart(s: Subscription, journal: seq<Event>): int {
    |journal| - |s.queue|
  }

  ghost predicate QueueOk(s: Subscription, open: bool, journal: seq<Event>) {
    if open then
      |s.queue| <= |journal| && s.queue == LiveItems(Envelopes(journal[QueueStart(s, journal)..]))
    else s.queue == [Resync]
  }

  /** The last sequence before a connection's first event, as it decided itself. */
  function Base(c: Connection): nat {
    if c.start.None? || c.resync then c.boundary else c.start.value
  }

  /** A boundary above the cursor taken from the hub, with no journal file read. */
  predicate MissedFirstRecords(c: Connection) {
    c.start.Some? && !c.resync && !c.readExists && c.start.value < c.boundary
  }

  ghost predicate Contiguous(c: Connection, journal: seq<Event>) {
    c.sent == [] || (Base(c) + |c.sent| <= |journal| && c.sent == Envelopes(journal[Base(c)..Base(c) + |c.sent|]))
  }

  /** A connection that has prepared its replay. */
  ghost predicate DeliveryOk(c: Connection, s: Subscription, open: bool, journal: seq<Event>) {
    && c.boundary <= |journal|
    && (c.phase == Streaming ==> c.replay == [])
    && if MissedFirstRecords(c) then
         c.replay == [] && forall e | e in c.sent :: e.sequence > c.boundary
       else
         && Base(c) + |c.sent| + |c.replay| <= |journal|
         && c.sent + c.replay == Envelopes(journal[Base(c)..Base(c) + |c.sent| + |c.replay|])
         && (open ==> Base(c) + |c.sent| + |c.replay|
                      == if QueueStart(s, journal) > c.boundary then QueueStart(s, journal) else c.boundary)
  }

  ghost predicate LiveOk(c: Connection, s: Subscription, open: bool, journal: seq<Event>) {
    && c.joined <= |journal|
    && QueueOk(s, open, journal)
    && (forall e | e in s.initialEvents :: c.start.Some? && c.start.value < e.sequence <= c.joined)
    && (c.joined == 0 && c.start == Some(0) ==> !s.resyncRequired)
    && (open && c.phase != Streaming ==> QueueStart(s, journal) == c.joined)
    && (c.phase == Subscribing || c.phase == HasRead ==> c.sent == [] && c.replay == [])
    && (c.phase != Subscribing ==>
          c.joined <= |c.read| <= |journal| && c.read == journal[..|c.read|] && (!c.readExists ==> c.read == []))
    && (c.phase == Prepared || c.phase == Streaming ==> DeliveryOk(c, s, open, journal))
  }

  /** What a connection has sent stays right for good. */
  ghost predicate SentOk(c: Connection, journal: seq<Event>) {
    if MissedFirstRecords(c) then forall e | e in c.sent :: e.sequence > c.boundary else Contiguous(c, journal)
  }

  ghost predicate ConnectionOk(w: World, id: nat)
    requires id in w.connections
  {
    var c := w.connections[id];
    if c.phase == Ended then SentOk(c, w.journal)
    else id in w.topic.subscriptions && LiveOk(c, w.topic.subscriptions[id], id in w.topic.subscribers, w.journal)
  }

  ghost predicate Inv(w: World) {
    TopicOk(w) && forall id | id in w.connections :: ConnectionOk(w, id)
  }

  lemma LiveSent(c: Connection, s: Subscription, open: bool, journal: seq<Event>)
    requires LiveOk(c, s, open, journal) && c.phase != Ended
    ensures SentOk(c, journal)
  {
    if c.phase == Prepared || c.phase == Streaming {
      if !MissedFirstRecords(c) {
        var n := |c.sent|;
        assert (c.sent + c.replay)[..n] == c.sent;
        assert Envelopes(journal[Base(c)..Base(c) + n + |c.replay|])[..n] == Envelopes(journal[Base(c)..Base(c) + n]);
      }
    }
  }

  // ----- publishing -----

  lemma SentGrows(c: Connection, journal: seq<Event>, e: Event)
    requires SentOk(c, journal)
    ensures SentOk(c, journal + [e])
  {
  }

  lemma QueueGrows(s: Subscription, open: bool, journal: seq<Event>, e: Event, limit: nat)
    requires QueueOk(s, open, journal) && e.sequence == |journal| + 1 && limit >= 1
    ensures !open ==> QueueOk(s, false, journal + [e])
    ensures open ==> QueueOk(Deliver(s, Envelope(e), limit), |s.queue| < limit, journal + [e])
    ensures open && |s.queue| < limit ==> QueueStart(Deliver(s, Envelope(e), limit), journal + [e]) == QueueStart(s, journal)
  {
  }

  lemma LiveGrows(c: Connection, s: Subscription, open: bool, journal: seq<Event>, e: Event, limit: nat)
    requires LiveOk(c, s, open, journal) && e.sequence == |journal| + 1 && limit >= 1
    ensures !open ==> LiveOk(c, s, false, journal + [e])
    ensures open ==> LiveOk(c, Deliver(s, Envelope(e), limit), |s.queue| < limit, journal + [e])
  {
    QueueGrows(s, open, journal, e, limit);
    var more := journal + [e];
    if c.phase != Subscribing {
      assert more[..|c.read|] == journal[..|c.read|];
    }
    if (c.phase == Prepared || c.phase == Streaming) && !MissedFirstRecords(c) {
      var upper := Base(c) + |c.sent| + |c.replay|;
      assert more[Base(c)..upper] == journal[Base(c)..upper];
    }
  }

  lemma PublishKeeps(w: World, event: Event, limits: Limits)
    requires Inv(w) && limits.Valid()
    ensures Inv(Step(w, Publish(event), limits))
  {
    var record := event.(sequence := |w.journal| + 1);
    var after := Step(w, Publish(event), limits);
    assert after.topic == Published(w.topic, Envelope(record), limits);
    forall id | id in after.connections ensures ConnectionOk(after, id) {
      assert ConnectionOk(w, id);
      var c := w.connections[id];
      if c.phase == Ended {
        SentGrows(c, w.journal, record);
      } else {
        LiveGrows(c, w.topic.subscriptions[id], id in w.topic.subscribers, w.journal, record, limits.queue);
      }
    }
  }

  // ----- the steps of a connection -----

  lemma {:induction false} LaterMembers(events: seq<EventEnvelope>, k: nat)
    ensures forall e | e in Later(events, k) :: e in events && e.sequence > k
  {
    if events != [] {
      LaterMembers(events[..|events| - 1], k);
    }
  }

  lemma ConnectOk(topic: Topic, journal: seq<Event>, start: Option<nat>)
    requires topic.sequence <= |journal|
    requires forall e | e in topic.history :: 1 <= e.sequence <= |journal|
    ensures LiveOk(Connection(start, Subscribing, |journal|, [], false, 0, false, [], [], false),
                   NewSubscription(topic, start), true, journal)
  {
    if start.Some? {
      LaterMembers(topic.history, start.value);
    }
    assert topic.history == [] || topic.history[0] in topic.history;
    assert journal[|journal|..] == [];
  }

  /** What a connection that has read the journal will replay. */
  lemma PrepareReplay(c: Connection, s: Subscription, journal: seq<Event>)
    requires Numbered(journal) && |c.read| <= |journal| && c.read == journal[..|c.read|] && c.joined <= |c.read|
    requires forall e | e in s.initialEvents :: c.start.Some? && c.start.value < e.sequence <= c.joined
    ensures var merged := MergedReplay(s.initialEvents, c.read, c.start);
      && (c.start.None? ==> merged == [])
      && (c.start.Some? && c.start.value <= |c.read| ==> merged == Envelopes(journal[c.start.value..|c.read|]))
  {
    if c.start.Some? && c.start.value <= |c.read| {
      hide MergedReplay, Envelopes;
      ReplayIsSuffix(s.initialEvents, c.read, c.start.value);
      assert c.read[c.start.value..] == journal[c.start.value..|c.read|];
    }
  }

  lemma NothingToReplay(s: Subscription, k: nat)
    requires s.initialEvents == []
    ensures MergedReplay(s.initialEvents, [], Some(k)) == []
  {
  }

  /** What is known about the merged replay, before the resync decision. */
  ghost predicate ReplayKnown(c: Connection, s: Subscription, journal: seq<Event>)
    requires |c.read| <= |journal|
  {
    var merged := MergedReplay(s.initialEvents, c.read, c.start);
    && (c.start.None? ==> merged == [])
    && (c.start.Some? && c.start.value <= |c.read| ==> merged == Envelopes(journal[c.start.value..|c.read|]))
    && (c.start.Some? && !c.readExists ==> merged == [])
  }

  lemma EmptyOrFirst(events: seq<EventEnvelope>)
    ensures events == [] || events[0] in events
  {
  }

  lemma ReplayFacts(c: Connection, s: Subscription, open: bool, journal: seq<Event>)
    requires c.phase == HasRead && Numbered(journal) && LiveOk(c, s, open, journal)
    ensures |c.read| <= |journal| && ReplayKnown(c, s, journal)
  {
    hide MergedReplay, Envelopes, QueueOk, QueueStart;
    PrepareReplay(c, s, journal);
    if !c.readExists && c.start.Some? {
      EmptyOrFirst(s.initialEvents);
      NothingToReplay(s, c.start.value);
    }
  }

  lemma PrepareOk(c: Connection, topic: Topic, id: nat, open: bool, journal: seq<Event>)
    requires id in topic.subscriptions && topic.sequence <= |journal| && Numbered(journal)
    requires c.phase == HasRead && LiveOk(c, topic.subscriptions[id], open, journal)
    ensures LiveOk(PreparedConnection(c, topic, id), topic.subscriptions[id], open, journal)
  {
    hide MergedReplay, Numbered, DeliveryOk, QueueOk, QueueStart, ReplayKnown, ResyncNeeded, ReplayBoundary;
    var s := topic.subscriptions[id];
    ReplayFacts(c, s, open, journal);
    PreparedDelivery(c, s, topic, id, open, journal);
  }

  lemma PreparedDelivery(c: Connection, s: Subscription, topic: Topic, id: nat, open: bool, journal: seq<Event>)
    requires id in topic.subscriptions && s == topic.subscriptions[id] && topic.sequence <= |journal| && |c.read| <= |journal|
    requires c.phase == HasRead && LiveOk(c, s, open, journal)
    requires ReplayKnown(c, s, journal)
    ensures DeliveryOk(PreparedConnection(c, topic, id), s, open, journal)
  {
    hide MergedReplay, QueueOk;
    var after := PreparedConnection(c, topic, id);
    if after.resync || c.start.None? {
      assert journal[after.boundary..after.boundary] == [] && after.replay == [];
    } else if c.readExists {
      assert [] + after.replay == after.replay;
    } else if c.start.value == after.boundary {
      assert journal[after.boundary..after.boundary] == [];
    }
  }

  lemma ReplayOk(c: Connection, s: Subscription, open: bool, journal: seq<Event>)
    requires c.phase == Prepared && LiveOk(c, s, open, journal)
    ensures c.replay == [] ==> LiveOk(c.(phase := Streaming), s, open, journal)
    ensures c.replay != [] ==> LiveOk(c.(sent := c.sent + [c.replay[0]], replay := c.replay[1..]), s, open, journal)
  {
    hide QueueOk, QueueStart, DeliveryOk;
    ReplayedDelivery(c, s, open, journal);
  }

  lemma ReplayedDelivery(c: Connection, s: Subscription, open: bool, journal: seq<Event>)
    requires c.phase == Prepared && DeliveryOk(c, s, open, journal)
    ensures c.replay == [] ==> DeliveryOk(c.(phase := Streaming), s, open, journal)
    ensures c.replay != [] ==> DeliveryOk(c.(sent := c.sent + [c.replay[0]], replay := c.replay[1..]), s, open, journal)
  {
    hide Envelopes, QueueStart, Base, MissedFirstRecords;
    SameBase(c, c.(phase := Streaming));
    if c.replay != [] {
      var sent, replay := c.sent + [c.replay[0]], c.replay[1..];
      SameBase(c, c.(sent := sent, replay := replay));
      assert sent + replay == c.sent + c.replay;
      assert |sent| + |replay| == |c.sent| + |c.replay|;
    }
  }

  lemma SameBase(c: Connection, d: Connection)
    requires c.start == d.start && c.resync == d.resync && c.boundary == d.boundary && c.readExists == d.readExists
    ensures Base(c) == Base(d) && MissedFirstRecords(c) == MissedFirstRecords(d)
  {
  }

  lemma QueuePops(s: Subscription, journal: seq<Event>)
    requires s.queue != [] && QueueOk(s, true, journal)
    ensures var q := QueueStart(s, journal);
      && 0 <= q < |journal| && s.queue[0] == Live(Envelope(journal[q]))
      && QueueOk(s.(queue := s.queue[1..]), true, journal)
      && QueueStart(s.(queue := s.queue[1..]), journal) == q + 1
  {
  }

  lemma ReceiveLiveOk(c: Connection, s: Subscription, journal: seq<Event>)
    requires c.phase == Streaming && s.queue != [] && Numbered(journal) && LiveOk(c, s, true, journal)
    ensures LiveOk(Received(c, s.queue[0]), s.(queue := s.queue[1..]), true, journal)
  {
    QueuePops(s, journal);
    var q := QueueStart(s, journal);
    assert journal[q].sequence == q + 1;
    hide QueueOk, QueueStart, Numbered, Envelopes, LiveItems, DeliveryOk;
    ReceivedDelivery(c, s, journal, q);
  }

  lemma ReceivedDelivery(c: Connection, s: Subscription, journal: seq<Event>, q: nat)
    requires c.phase == Streaming && s.queue != [] && DeliveryOk(c, s, true, journal)
    requires q == QueueStart(s, journal) && QueueStart(s.(queue := s.queue[1..]), journal) == q + 1
    requires q < |journal| && s.queue[0] == Live(Envelope(journal[q])) && journal[q].sequence == q + 1
    ensures DeliveryOk(Received(c, s.queue[0]), s.(queue := s.queue[1..]), true, journal)
  {
    hide QueueStart;
    var base := Base(c);
    if q >= c.boundary && !MissedFirstRecords(c) {
      assert c.sent + [] == c.sent;
      assert journal[base..q + 1] == journal[base..q] + [journal[q]];
      assert Envelopes(journal[base..q + 1]) == Envelopes(journal[base..q]) + [Envelope(journal[q])];
      assert c.sent + [Envelope(journal[q])] + [] == c.sent + [Envelope(journal[q])];
    }
  }

  /** A step that changes one connection soundly keeps the invariant. */
  lemma OneConnection(w: World, after: World, id: nat)
    requires Inv(w) && TopicOk(after) && after.journal == w.journal && id in after.connections && ConnectionOk(after, id)
    requires forall o | o in after.connections && o != id :: o in w.connections && after.connections[o] == w.connections[o]
    requires forall o | o != id && o in w.topic.subscriptions ::
      && o in after.topic.subscriptions && after.topic.subscriptions[o] == w.topic.subscriptions[o]
      && (o in after.topic.subscribers <==> o in w.topic.subscribers)
    ensures Inv(after)
  {
  }

  lemma QueueKinds(c: Connection, s: Subscription, open: bool, journal: seq<Event>)
    requires LiveOk(c, s, open, journal) && s.queue != []
    ensures open <==> s.queue[0].Live?
    ensures !open ==> s.queue == [Resync]
  {
  }

  lemma SentOkWhenEnded(c: Connection, journal: seq<Event>)
    requires SentOk(c, journal)
    ensures SentOk(c.(phase := Ended), journal)
  {
  }

  lemma ReceiveKeeps(w: World, id: nat)
    requires Inv(w) && id in w.connections
    ensures Inv(ConnectionStep(w, Receive(id)))
  {
    hide LiveOk, QueueOk, SentOk;
    var c := w.connections[id];
    assert ConnectionOk(w, id);
    if c.phase == Streaming && id in w.topic.subscriptions && w.topic.subscriptions[id].queue != [] {
      var s := w.topic.subscriptions[id];
      QueueKinds(c, s, id in w.topic.subscribers, w.journal);
      if id in w.topic.subscribers {
        ReceiveLiveOk(c, s, w.journal);
      } else {
        LiveSent(c, s, false, w.journal);
        SentOkWhenEnded(c, w.journal);
      }
      OneConnection(w, ConnectionStep(w, Receive(id)), id);
    }
  }

  lemma DisconnectKeeps(w: World, id: nat)
    requires Inv(w) && id in w.connections
    ensures Inv(ConnectionStep(w, Disconnect(id)))
  {
    hide LiveOk, SentOk;
    var c := w.connections[id];
    assert ConnectionOk(w, id);
    if c.phase != Ended {
      LiveSent(c, w.topic.subscriptions[id], id in w.topic.subscribers, w.journal);
    }
    SentOkWhenEnded(c, w.journal);
    OneConnection(w, ConnectionStep(w, Disconnect(id)), id);
  }

  lemma ConnectionStepKeeps(w: World, action: Action)
    requires Inv(w)
    requires !action.Publish? && !action.Connect? && !action.AlignWithJournal? && !action.Restart?
    requires action.id in w.connections
    ensures Inv(ConnectionStep(w, action))
  {
    hide Base, DeliveryOk, QueueOk, Contiguous;
    var id := action.id;
    var c := w.connections[id];
    assert ConnectionOk(w, id);
    if action.Receive? {
      ReceiveKeeps(w, id);
    } else if action.Disconnect? {
      DisconnectKeeps(w, id);
    } else {
      if action.Prepare? && c.phase == HasRead {
        PrepareOk(c, w.topic, id, id in w.topic.subscribers, w.journal);
      } else if action.Replay? && c.phase == Prepared {
        ReplayOk(c, w.topic.subscriptions[id], id in w.topic.subscribers, w.journal);
      }
      OneConnection(w, ConnectionStep(w, action), id);
    }
  }

  lemma ConnectKeeps(w: World, id: nat, start: Option<nat>, limits: Limits)
    requires Inv(w)
    ensures Inv(Step(w, Connect(id, start), limits))
  {
    hide LiveOk, SentOk, Later, NewSubscription, Envelopes;
    ConnectOk(w.topic, w.journal, start);
    var after := Step(w, Connect(id, start), limits);
    forall other | other in after.connections ensures ConnectionOk(after, other) {
      assert other in w.connections ==> ConnectionOk(w, other);
    }
  }

  lemma AlignKeeps(w: World, limits: Limits)
    requires Inv(w)
    ensures Inv(Step(w, AlignWithJournal, limits))
  {
  }

  lemma RestartKeeps(w: World, limits: Limits)
    requires Inv(w)
    ensures Inv(Step(w, Restart, limits))
  {
    hide LiveOk, SentOk;
    var after := Step(w, Restart, limits);
    forall other | other in after.connections ensures ConnectionOk(after, other) {
      assert ConnectionOk(w, other);
      if w.connections[other].phase != Ended {
        LiveSent(w.connections[other], w.topic.subscriptions[other], other in w.topic.subscribers, w.journal);
      }
      SentOkWhenEnded(w.connections[other], w.journal);
    }
  }

  lemma StepKeeps(w: World, action: Action, limits: Limits)
    requires Inv(w) && limits.Valid()
    ensures Inv(Step(w, action, limits))
  {
    hide Inv, ConnectionStep, FanOut, Published;
    match action
    case Publish(event) => PublishKeeps(w, event, limits);
    case Connect(id, start) => ConnectKeeps(w, id, start, limits);
    case AlignWithJournal => AlignKeeps(w, limits);
    case Restart => RestartKeeps(w, limits);
    case _ =>
      if action.id in w.connections {
        ConnectionStepKeeps(w, action);
      }
  }

  lemma {:induction false} RunKeeps(start: World, actions: seq<Action>, limits: Limits)
    requires Initial(start) && limits.Valid()
    ensures Inv(Run(start, actions, limits))
    decreases |actions|
  {
    if actions != [] {
      RunKeeps(start, actions[..|actions| - 1], limits);
      StepKeeps(Run(start, actions[..|actions| - 1], limits), actions[|actions| - 1], limits);
    }
  }

  // ----- the theorems -----

  /** The hub's sequence never passes the journal's cursor, so every published record is fanned out. */
  lemma HubNeverAhead(start: World, actions: seq<Action>, limits: Limits)
    requires Initial(start) && limits.Valid()
    ensures var w := Run(start, actions, limits); w.topic.sequence <= |w.journal|
  {
    RunKeeps(start, actions, limits);
  }

  /** What a connection has emitted is contiguous unless it took its boundary from the hub after a publish. */
  lemma NotMissedIsContiguous(start: World, actions: seq<Action>, limits: Limits, id: nat)
    requires Initial(start) && limits.Valid()
    requires id in Run(start, actions, limits).connections
    ensures var w := Run(start, actions, limits);
      !MissedFirstRecords(w.connections[id]) ==> Contiguous(w.connections[id], w.journal)
  {
    RunKeeps(start, actions, limits);
    var w := Run(start, actions, limits);
    assert ConnectionOk(w, id);
    var c := w.connections[id];
    if c.phase != Ended {
      LiveSent(c, w.topic.subscriptions[id], id in w.topic.subscribers, w.journal);
    }
  }

  // ----- the race that a missing file would need -----

  /** At this step the connection read the journal and found no file. */
  ghost predicate FoundNoFile(start: World, actions: seq<Action>, limits: Limits, id: nat, r: nat) {
    r < |actions| && actions[r] == ReadJournal(id) && !Run(start, actions[..r], limits).fileExists
  }

  ghost predicate PublishedIn(actions: seq<Action>, from: nat, to: nat) {
    exists j :: from < j < to <= |actions| && actions[j].Publish?
  }

  ghost predicate RacedAt(start: World, actions: seq<Action>, limits: Limits, id: nat, r: nat, p: nat) {
    FoundNoFile(start, actions, limits, id, r) && r < p < |actions| && actions[p] == Prepare(id) && PublishedIn(actions, r, p)
  }

  /** A record was published after the connection found no journal file and before it took its boundary. */
  ghost predicate PublishBetween(start: World, actions: seq<Action>, limits: Limits, id: nat) {
    exists r: nat, p: nat :: RacedAt(start, actions, limits, id, r, p)
  }

  /** A connection that has found no file, and whether anything was published since. */
  ghost predicate ReadTracked(start: World, actions: seq<Action>, limits: Limits, id: nat) {
    exists r: nat ::
      FoundNoFile(start, actions, limits, id, r)
      && (Run(start, actions, limits).journal != [] ==> PublishedIn(actions, r, |actions|))
  }

  ghost predicate RaceTracked(start: World, actions: seq<Action>, limits: Limits, id: nat, c: Connection) {
    && (c.phase == Subscribing ==> c.boundary == 0)
    && (c.phase == HasRead ==> c.boundary == 0 && (!c.readExists ==> ReadTracked(start, actions, limits, id)))
    && (MissedFirstRecords(c) ==> PublishBetween(start, actions, limits, id))
  }

  lemma FoundStays(start: World, actions: seq<Action>, limits: Limits, id: nat, r: nat)
    requires actions != [] && FoundNoFile(start, actions[..|actions| - 1], limits, id, r)
    ensures FoundNoFile(start, actions, limits, id, r)
  {
    hide Run;
    assert actions[..|actions| - 1][..r] == actions[..r];
  }

  lemma RaceStays(start: World, actions: seq<Action>, limits: Limits, id: nat)
    requires actions != [] && PublishBetween(start, actions[..|actions| - 1], limits, id)
    ensures PublishBetween(start, actions, limits, id)
  {
    hide FoundNoFile;
    var front := actions[..|actions| - 1];
    var r: nat, p: nat :| RacedAt(start, front, limits, id, r, p);
    FoundStays(start, actions, limits, id, r);
    var j :| r < j < p && front[j].Publish?;
    assert actions[j].Publish?;
    assert RacedAt(start, actions, limits, id, r, p);
  }

  /** A publish keeps the file's existence and the journal only grows by it. */
  lemma JournalStep(w: World, action: Action, limits: Limits)
    ensures var after := Step(w, action, limits);
      action.Publish? || (after.journal == w.journal && after.fileExists == w.fileExists)
  {
  }

  lemma TrackedStays(start: World, actions: seq<Action>, limits: Limits, id: nat)
    requires actions != [] && ReadTracked(start, actions[..|actions| - 1], limits, id)
    ensures ReadTracked(start, actions, limits, id)
  {
    hide FoundNoFile, Step;
    var n := |actions| - 1;
    var front := actions[..n];
    JournalStep(Run(start, front, limits), actions[n], limits);
    var r: nat :| FoundNoFile(start, front, limits, id, r)
      && (Run(start, front, limits).journal != [] ==> PublishedIn(front, r, n));
    FoundStays(start, actions, limits, id, r);
    FoundBefore(start, front, limits, id, r);
    if Run(start, actions, limits).journal != [] {
      if actions[n].Publish? {
        assert PublishedIn(actions, r, n + 1);
      } else {
        var j :| r < j < n && front[j].Publish?;
        assert actions[j].Publish?;
        assert PublishedIn(actions, r, n + 1);
      }
    }
  }

  lemma FoundBefore(start: World, actions: seq<Action>, limits: Limits, id: nat, r: nat)
    requires FoundNoFile(start, actions, limits, id, r)
    ensures r < |actions|
  {
  }

  /** How one step may bring a connection to each of its stages. */
  lemma StageStep(w: World, action: Action, limits: Limits, id: nat)
    requires Inv(w) && id in Step(w, action, limits).connections
    ensures var c := Step(w, action, limits).connections[id];
      && (c.phase == Subscribing ==> c.boundary == 0 || (id in w.connections && c == w.connections[id]))
      && (id !in w.connections ==> c.phase == Subscribing)
      && (c.phase == HasRead && id in w.connections && w.connections[id].phase != HasRead ==>
            action == ReadJournal(id) && w.connections[id].phase == Subscribing
            && c == w.connections[id].(phase := HasRead, read := w.journal, readExists := w.fileExists))
      && (c.phase == HasRead && id in w.connections && w.connections[id].phase == HasRead ==> c == w.connections[id])
  {
    hide FanOut, Subscribed, Advanced, NO_EVENTS, Taken, Closed, MergedReplay, ResyncNeeded, Inv;
  }

  /** The steps that may make a connection miss the first records. */
  lemma MissStep(w: World, action: Action, limits: Limits, id: nat)
    requires Inv(w) && id in Step(w, action, limits).connections
    requires var c := Step(w, action, limits).connections[id];
      MissedFirstRecords(c) && (id !in w.connections || !MissedFirstRecords(w.connections[id]))
    ensures var c := Step(w, action, limits).connections[id];
      || (c.phase == Subscribing && c.boundary == 0)
      || (action == ReadJournal(id) && id in w.connections && w.connections[id].phase == Subscribing
          && c.boundary == w.connections[id].boundary)
      || (action == Prepare(id) && id in w.connections && w.connections[id].phase == HasRead
          && !w.connections[id].readExists && w.journal != [])
  {
    hide FanOut, Subscribed, Advanced, NO_EVENTS, Taken, Closed, MergedReplay, ResyncNeeded, ConnectionOk;
  }

  lemma {:induction false} RunRaceTracked(start: World, actions: seq<Action>, limits: Limits, id: nat)
    requires Initial(start) && limits.Valid() && id in Run(start, actions, limits).connections
    ensures RaceTracked(start, actions, limits, id, Run(start, actions, limits).connections[id])
    decreases |actions|
  {
    hide Step, Inv, Initial, ReadTracked, PublishBetween;
    if actions == [] {
      NoConnections(start, limits, id);
    } else {
      var n := |actions| - 1;
      var w := Run(start, actions[..n], limits);
      RunKeeps(start, actions[..n], limits);
      StageStep(w, actions[n], limits, id);
      var after := Step(w, actions[n], limits).connections[id];
      if MissedFirstRecords(after) && (id !in w.connections || !MissedFirstRecords(w.connections[id])) {
        MissStep(w, actions[n], limits, id);
      }
      if id in w.connections {
        RunRaceTracked(start, actions[..n], limits, id);
        if PublishBetween(start, actions[..n], limits, id) {
          RaceStays(start, actions, limits, id);
        }
        if ReadTracked(start, actions[..n], limits, id) {
          TrackedStays(start, actions, limits, id);
        }
        if actions[n] == ReadJournal(id) && !w.fileExists {
          NowTracked(start, actions, limits, id);
        }
        if actions[n] == Prepare(id) && ReadTracked(start, actions[..n], limits, id) && w.journal != [] {
          NowRaced(start, actions, limits, id);
        }
      }
    }
  }

  lemma NoConnections(start: World, limits: Limits, id: nat)
    requires Initial(start)
    ensures id !in Run(start, [], limits).connections
  {
  }

  lemma NowTracked(start: World, actions: seq<Action>, limits: Limits, id: nat)
    requires actions != [] && actions[|actions| - 1] == ReadJournal(id)
    requires Inv(Run(start, actions[..|actions| - 1], limits)) && !Run(start, actions[..|actions| - 1], limits).fileExists
    ensures ReadTracked(start, actions, limits, id)
  {
    hide ConnectionOk, Step, Numbered;
    var n := |actions| - 1;
    JournalStep(Run(start, actions[..n], limits), actions[n], limits);
    assert FoundNoFile(start, actions, limits, id, n);
  }

  lemma NowRaced(start: World, actions: seq<Action>, limits: Limits, id: nat)
    requires actions != [] && actions[|actions| - 1] == Prepare(id)
    requires ReadTracked(start, actions[..|actions| - 1], limits, id) && Run(start, actions[..|actions| - 1], limits).journal != []
    ensures PublishBetween(start, actions, limits, id)
  {
    hide FoundNoFile, Run;
    var n := |actions| - 1;
    var front := actions[..n];
    var r: nat :| FoundNoFile(start, front, limits, id, r)
      && (Run(start, front, limits).journal != [] ==> PublishedIn(front, r, n));
    FoundStays(start, actions, limits, id, r);
    FoundBefore(start, front, limits, id, r);
    var j :| r < j < n && front[j].Publish?;
    assert actions[j].Publish?;
    assert RacedAt(start, actions, limits, id, r, n);
  }

  // ----- who is told to resynchronize -----

  /** The boundary is the end of what was read, and only a cursor past it is told to resynchronize. */
  predicate DecidedRight(c: Connection) {
    && c.boundary == |c.read| && c.joined <= |c.read|
    && (c.resync <==> c.start.Some? && c.start.value > |c.read|)
  }

  /** A connection before and after its decision. */
  ghost predicate Staged(c: Connection, journal: seq<Event>) {
    && c.read <= journal
    && (c.phase == Subscribing || c.phase == HasRead ==> !c.prepared)
    && (c.phase == Prepared || c.phase == Streaming ==> c.prepared)
    && (!c.prepared ==> c.sent == [] && c.replay == [])
  }

  /** A connection that read a file, or found none while nothing is published, decides right. */
  lemma PrepareDecides(c: Connection, topic: Topic, id: nat, open: bool, journal: seq<Event>)
    requires id in topic.subscriptions && topic.sequence <= |journal| && Numbered(journal)
    requires c.phase == HasRead && LiveOk(c, topic.subscriptions[id], open, journal)
    requires c.readExists || journal == []
    ensures DecidedRight(PreparedConnection(c, topic, id))
  {
    hide MergedReplay, QueueOk, QueueStart, DeliveryOk;
    var s := topic.subscriptions[id];
    ReplayFacts(c, s, open, journal);
    if c.start.Some? && c.start.value < |c.read| {
      FirstReplayed(journal, c.start.value, |c.read|);
    }
  }

  lemma FirstReplayed(journal: seq<Event>, k: nat, n: nat)
    requires Numbered(journal) && k < n <= |journal|
    ensures Envelopes(journal[k..n]) != [] && Envelopes(journal[k..n])[0].sequence == k + 1
  {
  }

  lemma StepStages(w: World, action: Action, limits: Limits, id: nat)
    requires id in Step(w, action, limits).connections
    requires id in w.connections ==> Staged(w.connections[id], w.journal)
    ensures Staged(Step(w, action, limits).connections[id], Step(w, action, limits).journal)
  {
    hide FanOut, Subscribed, Advanced, NO_EVENTS, Taken, Closed, MergedReplay, ResyncNeeded;
  }

  /** The decision is taken once, by `Prepare`, and then stays. */
  lemma StepDecides(w: World, action: Action, limits: Limits, id: nat)
    requires Inv(w) && id in Step(w, action, limits).connections
    requires id in w.connections ==> Staged(w.connections[id], w.journal)
    ensures var after := Step(w, action, limits).connections[id];
      if id !in w.connections then !after.prepared
      else if w.connections[id].prepared then DecidedRight(after) == DecidedRight(w.connections[id])
      else after.prepared ==>
        && action == Prepare(id) && w.connections[id].phase == HasRead
        && (DecidedRight(after) || (!w.connections[id].readExists && w.journal != []))
  {
    hide Inv, FanOut, Subscribed, Advanced, NO_EVENTS, Taken, Closed, PreparedConnection;
    if id in w.connections && w.connections[id].phase == HasRead && id in w.topic.subscriptions {
      PreparedDecides(w, id);
    }
  }

  lemma PreparedDecides(w: World, id: nat)
    requires Inv(w) && id in w.connections && w.connections[id].phase == HasRead && id in w.topic.subscriptions
    ensures var c := w.connections[id];
      var after := PreparedConnection(c, w.topic, id);
      after.prepared && (c.readExists || w.journal == [] ==> DecidedRight(after))
  {
    hide LiveOk, SentOk, DecidedRight, MergedReplay, ResyncNeeded, ReplayBoundary;
    assert ConnectionOk(w, id);
    var c := w.connections[id];
    if c.readExists || w.journal == [] {
      PrepareDecides(c, w.topic, id, id in w.topic.subscribers, w.journal);
    }
  }

  lemma {:induction false} RunDecides(start: World, actions: seq<Action>, limits: Limits, id: nat)
    requires Initial(start) && limits.Valid() && id in Run(start, actions, limits).connections
    ensures var w := Run(start, actions, limits);
      && Staged(w.connections[id], w.journal)
      && (w.connections[id].prepared && !PublishBetween(start, actions, limits, id) ==> DecidedRight(w.connections[id]))
    decreases |actions|
  {
    hide Step, Inv, Initial, ReadTracked, PublishBetween, Staged, DecidedRight;
    if actions == [] {
      NoConnections(start, limits, id);
    } else {
      var n := |actions| - 1;
      var w := Run(start, actions[..n], limits);
      RunKeeps(start, actions[..n], limits);
      if id in w.connections {
        RunDecides(start, actions[..n], limits, id);
        RunRaceTracked(start, actions[..n], limits, id);
        if PublishBetween(start, actions[..n], limits, id) {
          RaceStays(start, actions, limits, id);
        }
        if actions[n] == Prepare(id) && ReadTracked(start, actions[..n], limits, id) && w.journal != [] {
          NowRaced(start, actions, limits, id);
        }
      }
      StepStages(w, actions[n], limits, id);
      StepDecides(w, actions[n], limits, id);
    }
  }

  // ----- the theorems -----

  lemma RestIsEmitted(events: seq<EventEnvelope>, journal: seq<Event>, from: nat)
    requires from <= |journal| && events == Envelopes(journal[from..])
    ensures EmitsRest(events, journal, from)
  {
    assert journal[from..] == journal[from..|journal|];
    EmitsEnvelopes(events, journal, from);
  }

  lemma EmitsBegins(c: Connection, journal: seq<Event>)
    requires Contiguous(c, journal) && Staged(c, journal) && (c.prepared ==> DecidedRight(c))
    ensures EmitsFrom(c.sent, journal, Begins(c))
  {
    EmitsEnvelopes(c.sent, journal, Begins(c));
  }

  /**
   * In every run in which nothing is published between a connection's finding no file and its taking a boundary:
   * it is told to resynchronize exactly when its cursor is past the journal it read, which reaches at least as far as the
   * journal did when it came; with a cursor k not past it, it emits exactly the records k + 1, k + 2 and so on, and with none,
   * or when told to resynchronize, exactly those after what it read.
   */
  lemma DeliversContiguously(start: World, actions: seq<Action>, limits: Limits, id: nat)
    requires Initial(start) && limits.Valid()
    requires id in Run(start, actions, limits).connections
    ensures var w := Run(start, actions, limits);
      var c := w.connections[id];
      !PublishBetween(start, actions, limits, id) ==>
        && c.read <= w.journal
        && (c.prepared ==> c.joined <= |c.read| && (c.resync <==> c.start.Some? && c.start.value > |c.read|))
        && (c.start.Some? && c.start.value <= |c.read| ==> EmitsFrom(c.sent, w.journal, c.start.value))
        && (c.start.None? || c.start.value > |c.read| ==> EmitsFrom(c.sent, w.journal, |c.read|))
  {
    hide Run, Contiguous, PublishBetween, ReadTracked, EmitsFrom;
    RunRaceTracked(start, actions, limits, id);
    RunDecides(start, actions, limits, id);
    NotMissedIsContiguous(start, actions, limits, id);
    var w := Run(start, actions, limits);
    if !PublishBetween(start, actions, limits, id) {
      EmitsBegins(w.connections[id], w.journal);
    }
  }

  /**
   * In the same runs nothing is lost: what a subscriber has emitted, has still to replay and will let through from its queue
   * is the whole journal after its cursor k, or after what it read when it has none or one past that.
   */
  lemma NothingLost(start: World, actions: seq<Action>, limits: Limits, id: nat)
    requires Initial(start) && limits.Valid()
    requires id in Run(start, actions, limits).connections
    requires var phase := Run(start, actions, limits).connections[id].phase; phase == Prepared || phase == Streaming
    requires id in Run(start, actions, limits).topic.subscribers
    ensures var w := Run(start, actions, limits);
      var c := w.connections[id];
      && id in w.topic.subscriptions
      && (!PublishBetween(start, actions, limits, id) ==>
            var coming := c.replay + Unskipped(w.topic.subscriptions[id].queue, |c.read|);
            && |c.read| <= |w.journal|
            && (c.start.Some? && c.start.value <= |c.read| ==> EmitsRest(c.sent + coming, w.journal, c.start.value))
            && (c.start.None? || c.start.value > |c.read| ==> EmitsRest(c.sent + coming, w.journal, |c.read|)))
  {
    hide Run, PublishBetween, ReadTracked, MissedFirstRecords, Unskipped, Envelopes, LiveOk, EmitsRest;
    RunKeeps(start, actions, limits);
    RunRaceTracked(start, actions, limits, id);
    RunDecides(start, actions, limits, id);
    var w := Run(start, actions, limits);
    assert ConnectionOk(w, id);
    if !PublishBetween(start, actions, limits, id) {
      var c := w.connections[id];
      PendingIsRest(c, w.topic.subscriptions[id], w.journal);
      RestIsEmitted(c.sent + (c.replay + Unskipped(w.topic.subscriptions[id].queue, |c.read|)), w.journal,
                    if c.start.Some? && c.start.value <= |c.read| then c.start.value else |c.read|);
    }
  }

  lemma PendingIsRest(c: Connection, s: Subscription, journal: seq<Event>)
    requires LiveOk(c, s, true, journal) && (c.phase == Prepared || c.phase == Streaming) && Numbered(journal)
    requires !MissedFirstRecords(c)
    ensures Base(c) <= |journal| && Envelopes(journal[Base(c)..]) == c.sent + (c.replay + Unskipped(s.queue, c.boundary))
  {
    hide LiveOk, Base, Unskipped, Envelopes, LiveItems, MissedFirstRecords, QueueStart, Numbered;
    DoneSoFar(c, s, journal);
    var base, done := Base(c), |c.sent| + |c.replay|;
    UnskippedQueue(journal, QueueStart(s, journal), c.boundary);
    EnvelopesSplit(journal, base, base + done);
    Regroup(c.sent, c.replay, Unskipped(s.queue, c.boundary));
  }

  lemma Regroup<T>(a: seq<T>, b: seq<T>, c: seq<T>)
    ensures a + (b + c) == a + b + c
  {
  }

  lemma EnvelopesSplit(journal: seq<Event>, from: nat, mid: nat)
    requires from <= mid <= |journal|
    ensures Envelopes(journal[from..]) == Envelopes(journal[from..mid]) + Envelopes(journal[mid..])
  {
    hide Envelopes;
    assert journal[from..] == journal[from..mid] + journal[mid..];
    EnvelopesConcat(journal[from..mid], journal[mid..]);
  }

  lemma DoneSoFar(c: Connection, s: Subscription, journal: seq<Event>)
    requires LiveOk(c, s, true, journal) && (c.phase == Prepared || c.phase == Streaming) && !MissedFirstRecords(c)
    ensures var base, done, q := Base(c), |c.sent| + |c.replay|, QueueStart(s, journal);
      && 0 <= q <= |journal| && c.boundary <= |journal| && base + done <= |journal|
      && base + done == (if q > c.boundary then q else c.boundary)
      && c.sent + c.replay == Envelopes(journal[base..base + done])
      && s.queue == LiveItems(Envelopes(journal[q..]))
  {
    hide Envelopes, LiveItems, MissedFirstRecords, Base;
  }

  lemma EnvelopesConcat(left: seq<Event>, right: seq<Event>)
    ensures Envelopes(left + right) == Envelopes(left) + Envelopes(right)
  {
  }

  /** The queued events the boundary filter will let through. */
  function Unskipped(queue: seq<Item>, boundary: nat): seq<EventEnvelope> {
    if queue == [] then []
    else
      var last := queue[|queue| - 1];
      Unskipped(queue[..|queue| - 1], boundary)
        + if last.Live? && last.event.sequence > boundary then [last.event] else []
  }

  lemma UnskippedSnoc(queue: seq<Item>, last: Item, boundary: nat)
    ensures Unskipped(queue + [last], boundary)
      == Unskipped(queue, boundary) + if last.Live? && last.event.sequence > boundary then [last.event] else []
  {
  }

  lemma {:induction false} UnskippedQueue(journal: seq<Event>, q: nat, boundary: nat)
    requires Numbered(journal) && q <= |journal| && boundary <= |journal|
    ensures Unskipped(LiveItems(Envelopes(journal[q..])), boundary)
      == Envelopes(journal[if q > boundary then q else boundary..])
    decreases |journal|
  {
    hide Unskipped;
    var from := if q > boundary then q else boundary;
    if from == |journal| {
      UnskippedNone(LiveItems(Envelopes(journal[q..])), boundary);
      assert journal[from..] == [];
    } else {
      var n := |journal| - 1;
      var front := LiveItems(Envelopes(journal[..n][q..]));
      assert journal[q..] == journal[..n][q..] + [journal[n]];
      assert LiveItems(Envelopes(journal[q..])) == front + [Live(Envelope(journal[n]))];
      UnskippedSnoc(front, Live(Envelope(journal[n])), boundary);
      UnskippedQueue(journal[..n], q, boundary);
      assert Envelopes(journal[from..]) == Envelopes(journal[..n][from..]) + [Envelope(journal[n])];
    }
  }

  lemma {:induction false} UnskippedNone(queue: seq<Item>, boundary: nat)
    requires forall i | 0 <= i < |queue| :: queue[i].Live? && queue[i].event.sequence <= boundary
    ensures Unskipped(queue, boundary) == []
  {
    if queue != [] {
      UnskippedNone(queue[..|queue| - 1], boundary);
    }
  }
}
