/** Runs of appends, crashes in mid-write and restarts over one thread's file. */
module JournalCrash {
  import opened Records
  import opened JournalFile
  import opened JournalWriter

  /** An append that returned, or one whose process stopped after `cut` bytes of the line reached the file. */
  datatype Action = Append(attempt: Attempt) | Crash(attempt: Attempt, cut: nat)

  /** A record whose line is whole, and whether its append returned. */
  datatype Landed = Landed(record: Event, acknowledged: bool)

  /** The bytes on disk and the history of the run: the whole lines, the records that appends wrote and
      returned, and the records that duplicate appends returned. */
  datatype Journal = Journal(content: seq<Byte>, landed: seq<Landed>, written: seq<Event>, repeated: seq<Event>)

  const EMPTY := Journal([], [], [], [])

  /** The file after a write that stopped early; the repair comes first. */
  function CrashedFile(content: seq<Byte>, thread: string, attempt: Attempt, cut: nat, codec: Codec): seq<Byte> {
    var log := LogOf(content, thread, codec);
    var line := codec.Line(attempt.RecordAfter(log, thread));
    if attempt.Repeats(log) then Repair(content)
    else Repair(content) + if cut < |line| then line[..cut] else line
  }

  /** Whether the whole line, newline included, reached the file. */
  predicate LineLanded(content: seq<Byte>, thread: string, action: Action, codec: Codec) {
    var log := LogOf(content, thread, codec);
    && !action.attempt.Repeats(log)
    && (action.Crash? ==> action.cut >= |codec.Line(action.attempt.RecordAfter(log, thread))|)
  }

  function Perform(j: Journal, thread: string, action: Action, codec: Codec): Journal {
    var log := LogOf(j.content, thread, codec);
    var record := action.attempt.RecordAfter(log, thread);
    var content := match action
      case Append(attempt) => AppendedFile(j.content, thread, attempt, codec)
      case Crash(attempt, cut) => CrashedFile(j.content, thread, attempt, cut, codec);
    var landed := if LineLanded(j.content, thread, action, codec) then [Landed(record, action.Append?)] else [];
    var written := if action.Append? && !action.attempt.Repeats(log) then [record] else [];
    var repeated := if action.Append? && action.attempt.Repeats(log)
                    then [KeyMap(log.events)[action.attempt.values.dedupKey]] else [];
    Journal(content, j.landed + landed, j.written + written, j.repeated + repeated)
  }

  function Run(thread: string, actions: seq<Action>, codec: Codec): Journal {
    if actions == [] then EMPTY
    else Perform(Run(thread, actions[..|actions| - 1], codec), thread, actions[|actions| - 1], codec)
  }

  /** Every attempt is valid and draws an event id of its own. */
  ghost predicate Legal(actions: seq<Action>) {
    && (forall a | a in actions :: a.attempt.Valid())
    && forall i, j | 0 <= i < j < |actions| :: actions[i].attempt.eventId != actions[j].attempt.eventId
  }

  function Recorded(landed: seq<Landed>): (r: seq<Event>)
    ensures |r| == |landed| && forall i | 0 <= i < |r| :: r[i] == landed[i].record
  {
    seq(|landed|, i requires 0 <= i < |landed| => landed[i].record)
  }

  /** Each record holds what some attempt of the run handed in. */
  ghost predicate HeldFrom(events: seq<Event>, actions: seq<Action>, thread: string) {
    forall e | e in events :: exists a :: a in actions && HeldBy(e, a, thread)
  }

  predicate HeldBy(e: Event, a: Action, thread: string) {
    e.eventId == a.attempt.eventId && e.at == a.attempt.at && HoldsValues(e, thread, a.attempt.values)
  }

  /** An append that returned left its own record, or found one for its key that an earlier attempt left. */
  ghost predicate Answered(events: seq<Event>, actions: seq<Action>, i: nat, thread: string)
    requires i < |actions|
  {
    exists e, j: nat ::
      e in events && e.dedupKey == actions[i].attempt.values.dedupKey && j <= i && HeldBy(e, actions[j], thread)
  }

  function AcknowledgedPart(landed: seq<Landed>): seq<Event> {
    if landed == [] then []
    else
      var last := landed[|landed| - 1];
      AcknowledgedPart(landed[..|landed| - 1]) + if last.acknowledged then [last.record] else []
  }

  /** The repaired file holds exactly the landed records, undamaged and numbered from 1; the acknowledged ones
      among them are those the appends returned, in order. */
  ghost predicate Recovered(j: Journal, log: Scan) {
    && !log.damaged
    && log.events == Recorded(j.landed)
    && (forall i | 0 <= i < |log.events| :: log.events[i].sequence == i + 1)
    && AcknowledgedPart(j.landed) == j.written
    && (forall e | e in j.repeated :: e in log.events)
  }

  /** After any run, the next repair leaves a file that reads as exactly the records whose newline landed. */
  lemma {:induction false} RecoversLanded(thread: string, actions: seq<Action>, codec: Codec)
    requires codec.Valid() && Legal(actions)
    ensures Recovered(Run(thread, actions, codec), LogOf(Run(thread, actions, codec).content, thread, codec))
    ensures HeldFrom(LogOf(Run(thread, actions, codec).content, thread, codec).events, actions, thread)
    ensures forall i | 0 <= i < |actions| && actions[i].Append? ::
      Answered(LogOf(Run(thread, actions, codec).content, thread, codec).events, actions, i, thread)
    ensures Ordered(LogOf(Run(thread, actions, codec).content, thread, codec).events)
    decreases |actions|
  {
    hide LogOf, Perform, Recovered, HeldFrom, Answered, HeldBy, Scan.Sound, Ordered;
    LogSound(Run(thread, actions, codec).content, thread, codec);
    if actions == [] {
      NothingLanded(thread, codec);
    } else {
      var n := |actions| - 1;
      RecoversLanded(thread, actions[..n], codec);
      var before := Run(thread, actions[..n], codec);
      var log := LogOf(before.content, thread, codec);
      FreshAttempt(log.events, actions, thread);
      PerformRecovers(before, thread, actions[n], codec);
      var after := LogOf(Perform(before, thread, actions[n], codec).content, thread, codec);
      assert actions == actions[..n] + [actions[n]];
      HeldMore(log.events, after.events, actions[..n], actions[n], thread);
    }
  }

  lemma NothingLanded(thread: string, codec: Codec)
    ensures Recovered(Run(thread, [], codec), LogOf(Run(thread, [], codec).content, thread, codec))
    ensures HeldFrom(LogOf(Run(thread, [], codec).content, thread, codec).events, [], thread)
  {
    assert SplitLines([]) == [];
    assert Run(thread, [], codec) == EMPTY;
  }

  /** The id of the last attempt is that of no record before it. */
  lemma FreshAttempt(events: seq<Event>, actions: seq<Action>, thread: string)
    requires Legal(actions) && actions != [] && HeldFrom(events, actions[..|actions| - 1], thread)
    ensures actions[|actions| - 1].attempt.eventId !in EventIds(events)
  {
    var n := |actions| - 1;
    forall e | e in events ensures e.eventId != actions[n].attempt.eventId {
      var a :| a in actions[..n] && HeldBy(e, a, thread);
      var i: nat :| i < n && actions[i] == a;
    }
  }

  function AppendCount(actions: seq<Action>): nat {
    if actions == [] then 0
    else AppendCount(actions[..|actions| - 1]) + if actions[|actions| - 1].Append? then 1 else 0
  }

  /** Every append that returned has its answer: a record of its own or an older one. */
  lemma {:induction false} EveryAppendAnswers(thread: string, actions: seq<Action>, codec: Codec)
    ensures var j := Run(thread, actions, codec); |j.written| + |j.repeated| == AppendCount(actions)
  {
    if actions != [] {
      hide LogOf, AppendedFile, CrashedFile, KeyMap, LineLanded, Attempt.RecordAfter;
      EveryAppendAnswers(thread, actions[..|actions| - 1], codec);
    }
  }

  /** What one more action leaves of the run's promises. */
  lemma HeldMore(before: seq<Event>, after: seq<Event>, front: seq<Action>, last: Action, thread: string)
    requires HeldFrom(before, front, thread) && before <= after
    requires forall e | e in after :: e in before || HeldBy(e, last, thread)
    requires last.Append? ==> exists e :: e in after && e.dedupKey == last.attempt.values.dedupKey
    requires forall i | 0 <= i < |front| && front[i].Append? :: Answered(before, front, i, thread)
    ensures HeldFrom(after, front + [last], thread)
    ensures forall i | 0 <= i <= |front| && (front + [last])[i].Append? :: Answered(after, front + [last], i, thread)
  {
    hide HeldBy;
    var all, n := front + [last], |front|;
    forall e | e in after ensures exists a :: a in all && HeldBy(e, a, thread) {
      if e in before {
        var a :| a in front && HeldBy(e, a, thread);
        assert a in all;
      } else {
        assert last in all;
      }
    }
    forall i | 0 <= i <= n && all[i].Append? ensures Answered(after, all, i, thread) {
      if i < n {
        var e, j: nat :| e in before && e.dedupKey == front[i].attempt.values.dedupKey && j <= i && HeldBy(e, front[j], thread);
        assert e in after && HeldBy(e, all[j], thread);
      } else {
        var e :| e in after && e.dedupKey == last.attempt.values.dedupKey;
        var a :| a in all && HeldBy(e, a, thread);
        var j: nat :| j < |all| && all[j] == a;
        assert HeldBy(e, all[j], thread);
      }
    }
  }

  lemma LogSound(content: seq<Byte>, thread: string, codec: Codec)
    ensures LogOf(content, thread, codec).Sound(thread) && Ordered(LogOf(content, thread, codec).events)
  {
    ReadSound(Repair(content), thread, codec);
  }

  lemma PerformRecovers(before: Journal, thread: string, action: Action, codec: Codec)
    requires codec.Valid() && action.attempt.Valid()
    requires action.attempt.eventId !in EventIds(LogOf(before.content, thread, codec).events)
    requires Recovered(before, LogOf(before.content, thread, codec))
    ensures Recovered(Perform(before, thread, action, codec), LogOf(Perform(before, thread, action, codec).content, thread, codec))
    ensures var log, after := LogOf(before.content, thread, codec), LogOf(Perform(before, thread, action, codec).content, thread, codec);
      && log.events <= after.events
      && (forall e | e in after.events :: e in log.events || HeldBy(e, action, thread))
      && (action.Append? ==> exists e :: e in after.events && e.dedupKey == action.attempt.values.dedupKey)
  {
    PerformLog(before, thread, action, codec);
    ReadSound(Repair(before.content), thread, codec);
    var log, after := LogOf(before.content, thread, codec), Perform(before, thread, action, codec);
    hide LogOf, Recovered, AppendedFile, CrashedFile;
    if LineLanded(before.content, thread, action, codec) {
      OneMoreLanded(before, after, log, action.attempt.RecordAfter(log, thread), action.Append?);
    } else {
      SameLanded(before, after, log);
    }
  }

  lemma OneMoreLanded(before: Journal, after: Journal, log: Scan, record: Event, acknowledged: bool)
    requires Recovered(before, log) && record.sequence == log.highWater + 1 && log.highWater == |log.events|
    requires after.landed == before.landed + [Landed(record, acknowledged)]
    requires after.written == before.written + if acknowledged then [record] else []
    requires after.repeated == before.repeated
    ensures Recovered(after, Scan(log.events + [record], log.expected + 1, log.highWater + 1, log.damaged))
  {
  }

  lemma SameLanded(before: Journal, after: Journal, log: Scan)
    requires Recovered(before, log)
    requires after.landed == before.landed && after.written == before.written
    requires forall e | e in after.repeated :: e in before.repeated || e in log.events
    ensures Recovered(after, log)
  {
  }

  lemma PerformLog(before: Journal, thread: string, action: Action, codec: Codec)
    requires codec.Valid() && action.attempt.Valid()
    requires action.attempt.eventId !in EventIds(LogOf(before.content, thread, codec).events)
    ensures var log := LogOf(before.content, thread, codec);
      LogOf(Perform(before, thread, action, codec).content, thread, codec)
      == if LineLanded(before.content, thread, action, codec) then AppendedLog(log, thread, action.attempt) else log
  {
    AppendAddsRecord(before.content, thread, action.attempt, codec);
    var log := LogOf(before.content, thread, codec);
    if action.Crash? && !LineLanded(before.content, thread, action, codec) && !action.attempt.Repeats(log) {
      var record := action.attempt.RecordAfter(log, thread);
      assert codec.Line(record)[..action.cut] == codec.encode(record)[..action.cut];
      assert NoBreak(codec.encode(record));
      RepairTornTail(Repair(before.content), codec.encode(record)[..action.cut]);
    }
  }

  /** A line cut exactly before its newline is read, but as damage, and the repair takes it away. */
  lemma CutBeforeNewline(content: seq<Byte>, thread: string, attempt: Attempt, codec: Codec)
    requires codec.Valid() && attempt.Valid()
    requires var log := LogOf(content, thread, codec);
      !attempt.Repeats(log) && !log.damaged && attempt.eventId !in EventIds(log.events)
    ensures var log := LogOf(content, thread, codec);
      var record := attempt.RecordAfter(log, thread);
      var torn := CrashedFile(content, thread, attempt, |codec.encode(record)|, codec);
      && ScanFile(torn, thread, codec).damaged
      && ScanFile(torn, thread, codec).events == log.events + [record]
      && Repair(torn) == Repair(content)
  {
    var log := LogOf(content, thread, codec);
    var record := attempt.RecordAfter(log, thread);
    assert codec.Line(record)[..|codec.encode(record)|] == codec.encode(record);
    ReadSound(Repair(content), thread, codec);
    ReadWithoutNewline(Repair(content), record, codec);
    assert NoBreak(codec.encode(record));
    RepairTornTail(Repair(content), codec.encode(record));
  }
}
