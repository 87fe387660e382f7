/**
Live delivery of one thread: publishing appends to the journal and fans out in one step; a connection
subscribes, reads the journal, prepares its replay and then filters the live queue. The steps of
connections interleave freely with each other, with publishes and with process restarts.
*/
module Delivery {
  import opened Records
  import opened EventHub

  /** The envelope of a record, the same for fan-out and for replay. */
  function Envelope(e: Event): EventEnvelope {
    EventEnvelope(e.sequence, e.threadId, if e.turnId == Some("") then None else e.turnId, e.eventType, e.methodName, e.data)
  }

  function Envelopes(events: seq<Event>): (r: seq<EventEnvelope>)
    ensures |r| == |events| && forall i | 0 <= i < |r| :: r[i] == Envelope(events[i])
  {
    seq(|events|, i requires 0 <= i < |events| => Envelope(events[i]))
  }

  datatype Phase = Subscribing | HasRead | Prepared | Streaming | Ended

  /**
  One SSE connection. `joined` is the journal length when it subscribed, `read` the records it read,
  `boundary` the sequence up to which the live queue is skipped, `replay` what is still to be replayed,
  `sent` the real events it has emitted, and `prepared` whether its boundary and its replay have been decided.
  */
  datatype Connection = Connection(
    start: Option<nat>, phase: Phase, joined: nat, read: seq<Event>, readExists: bool,
    boundary: nat, resync: bool, replay: seq<EventEnvelope>, sent: seq<EventEnvelope>, prepared: bool)

  /** A connection's number is also its subscription's. */
  datatype World = World(journal: seq<Event>, fileExists: bool, topic: Topic, connections: map<nat, Connection>)

  datatype Action =
    | Publish(event: Event)
    | Connect(id: nat, start: Option<nat>)
    | ReadJournal(id: nat)
    | AlignHub(id: nat)
    | Prepare(id: nat)
    | Replay(id: nat)
    | Receive(id: nat)
    | Disconnect(id: nat)
    | AlignWithJournal
    | Restart

  // ----- the replay list -----

  function BySequence(events: seq<EventEnvelope>): map<nat, EventEnvelope> {
    if events == [] then map[]
    else BySequence(events[..|events| - 1])[events[|events| - 1].sequence := events[|events| - 1]]
  }

  /** The values of a map in ascending key order, up to a bound. */
  function Ascending(m: map<nat, EventEnvelope>, bound: nat): seq<EventEnvelope> {
    if bound == 0 then if 0 in m then [m[0]] else []
    else Ascending(m, bound - 1) + if bound in m then [m[bound]] else []
  }

  function MaxSequence(events: seq<EventEnvelope>): nat {
    if events == [] then 0
    else
      var rest := MaxSequence(events[..|events| - 1]);
      var last := events[|events| - 1].sequence;
      if last > rest then last else rest
  }

  /** The hub's history merged with the journal's records by sequence, the journal's copy winning. */
  function MergedReplay(initial: seq<EventEnvelope>, read: seq<Event>, start: Option<nat>): seq<EventEnvelope> {
    match start
    case None => []
    case Some(k) =>
      var all := initial + Later(Envelopes(read), k);
      Ascending(BySequence(all), MaxSequence(all))
  }

  function ReplayBoundary(c: Connection, topic: Topic): nat {
    if c.readExists then |c.read| else topic.sequence
  }

  predicate ResyncNeeded(c: Connection, s: Subscription, boundary: nat, replay: seq<EventEnvelope>) {
    c.start.Some? && (
      || c.start.value > boundary
      || (s.resyncRequired && !c.readExists)
      || (replay != [] && replay[0].sequence != c.start.value + 1))
  }

  // ----- the steps -----

  function FanOut(topic: Topic, event: Event, limits: Limits): Topic {
    if event.sequence <= topic.sequence then topic else Published(topic, Envelope(event), limits)
  }

  function With(w: World, id: nat, c: Connection): World {
    w.(connections := w.connections[id := c])
  }

  function Step(w: World, action: Action, limits: Limits): World {
    match action
    case Publish(event) =>
      // An append numbers the record itself.
      var record := event.(sequence := |w.journal| + 1);
      w.(journal := w.journal + [record], fileExists := true, topic := FanOut(w.topic, record, limits))
    case Connect(id, start) =>
      if id in w.connections || id in w.topic.subscriptions then w
      else With(w, id, Connection(start, Subscribing, |w.journal|, [], false, 0, false, [], [], false))
           .(topic := Subscribed(w.topic, id, start))
    case AlignWithJournal => w.(topic := Advanced(w.topic, |w.journal|))
    case Restart =>
      w.(topic := NO_EVENTS, connections := map id | id in w.connections :: w.connections[id].(phase := Ended))
    case _ => if action.id in w.connections then ConnectionStep(w, action) else w
  }

  function ConnectionStep(w: World, action: Action): World
    requires !action.Publish? && !action.AlignWithJournal? && !action.Restart? && action.id in w.connections
  {
    var id := action.id;
    var c := w.connections[id];
    match action
    case ReadJournal(_) =>
      if c.phase == Subscribing then With(w, id, c.(phase := HasRead, read := w.journal, readExists := w.fileExists)) else w
    case AlignHub(_) =>
      if c.phase == HasRead then w.(topic := Advanced(w.topic, |c.read|)) else w
    case Prepare(_) =>
      if c.phase == HasRead && id in w.topic.subscriptions then With(w, id, PreparedConnection(c, w.topic, id)) else w
    case Replay(_) =>
      if c.phase != Prepared then w
      else if c.replay == [] then With(w, id, c.(phase := Streaming))
      else With(w, id, c.(sent := c.sent + [c.replay[0]], replay := c.replay[1..]))
    case Receive(_) =>
      if c.phase != Streaming || id !in w.topic.subscriptions || w.topic.subscriptions[id].queue == [] then w
      else With(w, id, Received(c, w.topic.subscriptions[id].queue[0])).(topic := Taken(w.topic, id))
    case Disconnect(_) => With(w, id, c.(phase := Ended)).(topic := Closed(w.topic, id))
    case Connect(_, _) => w
  }

  function PreparedConnection(c: Connection, topic: Topic, id: nat): Connection
    requires id in topic.subscriptions
  {
    var s := topic.subscriptions[id];
    var merged := MergedReplay(s.initialEvents, c.read, c.start);
    var boundary := ReplayBoundary(c, topic);
    var resync := ResyncNeeded(c, s, boundary, merged);
    c.(phase := Prepared, prepared := true, boundary := boundary, resync := resync, replay := if resync then [] else merged)
  }

  /** One item from the live queue. */
  function Received(c: Connection, item: Item): Connection {
    match item
    case Resync => c.(phase := Ended)
    case Live(event) => if event.sequence <= c.boundary then c else c.(sent := c.sent + [event])
  }

  /** A process start over an undamaged journal. */
  predicate Initial(w: World) {
    && (forall i | 0 <= i < |w.journal| :: w.journal[i].sequence == i + 1)
    && (w.journal != [] ==> w.fileExists)
    && w.topic == NO_EVENTS && w.connections == map[]
  }

  function Run(start: World, actions: seq<Action>, limits: Limits): World {
    if actions == [] then start
    else Step(Run(start, actions[..|actions| - 1], limits), actions[|actions| - 1], limits)
  }

  // ----- what a connection delivers -----

  /** Where a connection's events begin: at its cursor, if the journal it read reaches that far, and else at the end of that. */
  function Begins(c: Connection): nat {
    if c.start.Some? && c.start.value <= |c.read| then c.start.value else |c.read|
  }

  /** An emitted event is a record, field by field; an empty turn id counts as none. */
  predicate ShowsRecord(e: EventEnvelope, r: Event) {
    && e.sequence == r.sequence && e.threadId == r.threadId && e.eventType == r.eventType && e.methodName == r.methodName
    && e.data == r.data && e.turnId == (if r.turnId == Some("") then None else r.turnId)
  }

  /** Some events are exactly the records from a place on, with no gap, repeat or reorder. */
  ghost predicate EmitsFrom(events: seq<EventEnvelope>, journal: seq<Event>, from: nat) {
    && from + |events| <= |journal|
    && forall i | 0 <= i < |events| :: ShowsRecord(events[i], journal[from + i])
  }

  /** Some events are all the records from a place on. */
  ghost predicate EmitsRest(events: seq<EventEnvelope>, journal: seq<Event>, from: nat) {
    EmitsFrom(events, journal, from) && from + |events| == |journal|
  }

  lemma EmitsEnvelopes(events: seq<EventEnvelope>, journal: seq<Event>, from: nat)
    ensures EmitsFrom(events, journal, from)
      <==> from + |events| <= |journal| && events == Envelopes(journal[from..from + |events|])
  {
    if EmitsFrom(events, journal, from) {
      var slice := journal[from..from + |events|];
      forall i | 0 <= i < |events| ensures events[i] == Envelopes(slice)[i] {
        assert ShowsRecord(events[i], journal[from + i]);
      }
    }
  }
}
