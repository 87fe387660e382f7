/** What one append does to the bytes of one thread's file. */
module JournalWriter {
  import opened Records
  import opened JournalFile

  /** The reader's key-to-record map, built in journal order. */
  function KeyMap(events: seq<Event>): (m: map<DedupKey, Event>)
    ensures m.Keys == Keys(events)
    ensures forall k :: k in m ==> m[k] in events && m[k].dedupKey == k
  {
    if events == [] then map[]
    else
      var n := |events| - 1;
      assert events == events[..n] + [events[n]];
      KeyMap(events[..n])[events[n].dedupKey := events[n]]
  }

  lemma KeyMapSnoc(events: seq<Event>, e: Event)
    ensures KeyMap(events + [e]) == KeyMap(events)[e.dedupKey := e]
  {
  }

  /** The records an append finds: the repaired file, scanned. */
  function LogOf(content: seq<Byte>, thread: string, codec: Codec): Scan {
    ScanFile(Repair(content), thread, codec)
  }

  /** The encoder, the source of event ids and the clock's text form. */
  datatype Environment = Environment(codec: Codec, uuid: nat -> string, iso: int -> string)
  {
    ghost predicate Valid() {
      && codec.Valid()
      && (forall n :: uuid(n) != "")
      && (forall m, n :: m != n ==> uuid(m) != uuid(n))
      && (forall t :: iso(t) != "")
    }
  }

  /** One write attempt: the values, and the event id and time drawn for it. */
  datatype Attempt = Attempt(values: Values, eventId: string, at: string)
  {
    predicate Valid() {
      values.Valid() && eventId != "" && at != ""
    }

    function RecordAfter(log: Scan, thread: string): Event {
      values.Record(thread, log.highWater + 1, eventId, at)
    }

    predicate Repeats(log: Scan) {
      values.dedupKey in Keys(log.events)
    }
  }

  /** The file after an append that returned. */
  function AppendedFile(content: seq<Byte>, thread: string, attempt: Attempt, codec: Codec): seq<Byte> {
    var log := LogOf(content, thread, codec);
    if attempt.Repeats(log) then Repair(content)
    else Repair(content) + codec.Line(attempt.RecordAfter(log, thread))
  }

  /** The records after an append: one more, unless the key is already there. */
  function AppendedLog(log: Scan, thread: string, attempt: Attempt): Scan {
    if attempt.Repeats(log) then log
    else Scan(log.events + [attempt.RecordAfter(log, thread)], log.expected + 1, log.highWater + 1, log.damaged)
  }

  /** An append to any file, damaged or not, adds exactly its record to what the reader sees. */
  lemma AppendAddsRecord(content: seq<Byte>, thread: string, attempt: Attempt, codec: Codec)
    requires codec.Valid() && attempt.Valid()
    requires attempt.eventId !in EventIds(LogOf(content, thread, codec).events)
    ensures var file := AppendedFile(content, thread, attempt, codec);
      && EndsLine(file)
      && ScanFile(file, thread, codec) == AppendedLog(LogOf(content, thread, codec), thread, attempt)
      && LogOf(file, thread, codec) == ScanFile(file, thread, codec)
  {
    var log := LogOf(content, thread, codec);
    if !attempt.Repeats(log) {
      ReadSound(Repair(content), thread, codec);
      ReadAppended(Repair(content), attempt.RecordAfter(log, thread), codec);
    }
  }

  // ----- runs of appends to one thread -----

  /** The records of one thread and the number of event ids drawn so far. */
  datatype Progress = Progress(log: Scan, drawn: nat)

  function AppendNext(p: Progress, thread: string, values: Values, env: Environment, now: int): Progress {
    var attempt := Attempt(values, env.uuid(p.drawn), env.iso(now));
    if attempt.Repeats(p.log) then p else Progress(AppendedLog(p.log, thread, attempt), p.drawn + 1)
  }

  function AppendAll(p: Progress, thread: string, requests: seq<Values>, env: Environment, now: int): Progress {
    if requests == [] then p
    else
      var n := |requests| - 1;
      AppendNext(AppendAll(p, thread, requests[..n], env, now), thread, requests[n], env, now)
  }

  lemma AppendAllSnoc(p: Progress, thread: string, requests: seq<Values>, last: Values, env: Environment, now: int)
    ensures AppendAll(p, thread, requests + [last], env, now)
         == AppendNext(AppendAll(p, thread, requests, env, now), thread, last, env, now)
  {
  }

  lemma AppendAllOne(p: Progress, thread: string, only: Values, env: Environment, now: int)
    ensures AppendAll(p, thread, [only], env, now) == AppendNext(p, thread, only, env, now)
  {
  }
}
