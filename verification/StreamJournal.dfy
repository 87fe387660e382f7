/** `StreamJournal`: the files of all threads and the in-memory writer cache. */
module StreamJournal {
  import opened Records
  import opened JournalFile
  import opened JournalWriter
  import opened JournalReader
  import opened HistoryImport
  import HistoryRecords

  /** A thread's journal is found by project directory and thread id. */
  datatype ThreadKey = ThreadKey(project: string, thread: string)

  datatype ThreadDirectory = ThreadDirectory(events: Option<seq<Byte>>, eventsModified: int, directoryModified: int)

  datatype WriterState = WriterState(nextSequence: nat, dedupEvents: map<DedupKey, Event>)

  datatype JournalAppend = JournalAppend(record: Event, duplicate: bool)

  const DAY := 86400

  predicate ValidThreadId(thread: string) {
    && 1 <= |thread| <= 128
    && forall c | c in thread :: 'A' <= c <= 'Z' || 'a' <= c <= 'z' || '0' <= c <= '9' || c == '_' || c == '-'
  }

  function Max(x: int, y: int): int {
    if x > y then x else y
  }

  class StreamJournal {
    const env: Environment
    var disk: map<ThreadKey, ThreadDirectory>
    var states: map<ThreadKey, WriterState>
    /** Deleted threads' directories, under their stamped names. */
    var trash: map<ThreadKey, ThreadDirectory>
    /** How many event ids have been drawn so far. */
    var drawn: nat

    function File(key: ThreadKey): Option<seq<Byte>>
      reads this
    {
      if key in disk then disk[key].events else None
    }

    function Bytes(key: ThreadKey): seq<Byte>
      reads this
    {
      match File(key)
      case None => []
      case Some(content) => content
    }

    /** What an append to this thread would find after repairing the file. */
    function Log(key: ThreadKey): Scan
      reads this
    {
      LogOf(Bytes(key), key.thread, env.codec)
    }

    /** The cached state is the reader's cursor plus one and the reader's key-to-record map. */
    ghost predicate Agrees(key: ThreadKey)
      reads this
      requires key in states
    {
      var current := ReadSpec(File(key), key.thread, env.codec);
      && EndsLine(Bytes(key))
      && states[key].nextSequence == current.cursor + 1
      && states[key].dedupEvents == KeyMap(current.events)
    }

    ghost predicate FreshIds(key: ThreadKey)
      reads this
    {
      forall n | n >= drawn :: env.uuid(n) !in EventIds(Log(key).events)
    }

    ghost predicate Valid()
      reads this
    {
      && env.Valid()
      && (forall key | key in states :: Agrees(key))
      && (forall key :: FreshIds(key))
    }

    /** A process start over whatever bytes are on disk. */
    constructor (env: Environment, disk: map<ThreadKey, ThreadDirectory>, trash: map<ThreadKey, ThreadDirectory>, drawn: nat)
      requires env.Valid()
      requires forall key, n | key in disk && disk[key].events.Some? && n >= drawn ::
        env.uuid(n) !in EventIds(LogOf(disk[key].events.value, key.thread, env.codec).events)
      ensures Valid()
      ensures this.env == env && this.disk == disk && this.trash == trash && this.drawn == drawn && states == map[]
    {
      this.env, this.disk, this.trash, this.drawn := env, disk, trash, drawn;
      states := map[];
      new;
      forall key ensures FreshIds(key) {
        if File(key).None? {
          assert SplitLines([]) == [];
        }
      }
    }

    method Read(key: ThreadKey) returns (r: JournalRead)
      ensures r == ReadSpec(File(key), key.thread, env.codec)
    {
      r := ReadFile(File(key), key.thread, env.codec);
    }

    method PreparePath(key: ThreadKey, now: int)
      requires Valid()
      modifies this`disk
      ensures Valid()
      ensures key in disk && disk.Keys == old(disk.Keys) + {key}
      ensures disk - {key} == old(disk) - {key}
      ensures Bytes(key) == Repair(old(Bytes(key))) && File(key).Some? == old(File(key)).Some?
      ensures forall k :: Log(k) == old(Log(k))
    {
      if key !in disk {
        disk := disk[key := ThreadDirectory(None, now, now)];
      }
      var directory := disk[key];
      if directory.events.Some? && !EndsLine(directory.events.value) {
        var repaired := Repair(directory.events.value);
        disk := disk[key := directory.(events := Some(repaired), eventsModified := now)];
      }
      RepairKeepsLogs(key);
    }

    /** Repairing one file changes no log, so the cache stays right. */
    twostate lemma RepairKeepsLogs(key: ThreadKey)
      requires old(Valid()) && states == old(states) && drawn == old(drawn)
      requires forall k | k != key :: File(k) == old(File(k))
      requires Bytes(key) == Repair(old(Bytes(key))) && File(key).Some? == old(File(key)).Some?
      ensures forall k :: Log(k) == old(Log(k))
      ensures Valid()
    {
      forall k ensures Log(k) == old(Log(k)) {
        assert k != key ==> Bytes(k) == old(Bytes(k));
      }
      forall k | k in states ensures Agrees(k) {
        assert old(Agrees(k));
        assert File(k) == old(File(k));
      }
      forall k ensures FreshIds(k) {
        assert old(FreshIds(k));
      }
    }

    method State(key: ThreadKey) returns (state: WriterState)
      requires Valid() && EndsLine(Bytes(key))
      modifies this`states
      ensures Valid() && key in states && states == old(states)[key := state]
      ensures old(key in states) ==> states == old(states)
      ensures state.nextSequence == Log(key).highWater + 1 && state.dedupEvents == KeyMap(Log(key).events)
    {
      hide Valid, Log, ReadSpec, KeyMap;
      if key in states {
        KnownState(key);
        state := states[key];
      } else {
        var current := Read(key);
        state := WriterState(current.cursor + 1, KeyMap(current.events));
        states := states[key := state];
        CachedKeepsAgreement(key, state);
        ReadGivesLog(key);
      }
    }

    lemma KnownState(key: ThreadKey)
      requires Valid() && EndsLine(Bytes(key)) && key in states
      ensures states[key].nextSequence == Log(key).highWater + 1 && states[key].dedupEvents == KeyMap(Log(key).events)
    {
    }

    lemma ReadGivesLog(key: ThreadKey)
      requires EndsLine(Bytes(key))
      ensures ReadSpec(File(key), key.thread, env.codec).cursor == Log(key).highWater
      ensures ReadSpec(File(key), key.thread, env.codec).events == Log(key).events
    {
    }

    twostate lemma CachedKeepsAgreement(new key: ThreadKey, new state: WriterState)
      requires old(Valid()) && disk == old(disk) && drawn == old(drawn)
      requires states == old(states)[key := state] && EndsLine(Bytes(key))
      requires var current := ReadSpec(File(key), key.thread, env.codec);
        state.nextSequence == current.cursor + 1 && state.dedupEvents == KeyMap(current.events)
      ensures Valid()
    {
      forall k | k in states ensures Agrees(k) {
        assert k != key ==> old(Agrees(k));
      }
      forall k ensures FreshIds(k) {
        assert old(FreshIds(k));
      }
    }

    function Position(key: ThreadKey): Progress
      reads this
    {
      Progress(Log(key), drawn)
    }

    /** Other threads' directories and cached states are untouched. */
    twostate predicate OthersKept(key: ThreadKey)
      reads this
    {
      disk - {key} == old(disk) - {key} && states - {key} == old(states) - {key}
    }

    /** One request: the file is repaired, then either its key is already recorded or one full line is written. */
    method Append(key: ThreadKey, values: Values, now: int) returns (r: Option<JournalAppend>)
      requires Valid()
      modifies this`disk, this`states, this`drawn
      ensures Valid() && OthersKept(key)
      ensures r.None? <==> !(ValidThreadId(key.thread) && values.Valid())
      ensures r.Some? <==>
        && 1 <= |key.thread| <= 128
        && (forall c | c in key.thread :: 'A' <= c <= 'Z' || 'a' <= c <= 'z' || '0' <= c <= '9' || c == '_' || c == '-')
        && values.source in {CodexStream, CodexHistory} && values.kind != OtherKind("")
      ensures r.None? ==> disk == old(disk) && states == old(states) && drawn == old(drawn)
      ensures r.Some? ==> key in states && EndsLine(Bytes(key))
      ensures r.Some? ==> Position(key) == AppendNext(old(Position(key)), key.thread, values, env, now)
      ensures r.Some? ==> r.value.record in Log(key).events && r.value.record.dedupKey == values.dedupKey
      ensures r.Some? ==> r.value.duplicate == (values.dedupKey in Keys(old(Log(key)).events))
      ensures r.Some? ==> Log(key).events == old(Log(key)).events + if r.value.duplicate then [] else [r.value.record]
      ensures r.Some? && !r.value.duplicate ==> var e := r.value.record;
        && e.kind == values.kind && e.eventType == values.eventType && e.methodName == values.methodName
        && e.source == values.source && e.threadId == key.thread && e.turnId == values.turnId && e.itemId == values.itemId
        && e.data == values.data && e.at == env.iso(now) && e.eventId == env.uuid(old(drawn))
        && e.sequence == old(Log(key)).highWater + 1
      ensures r.Some? && !r.value.duplicate ==>
        File(key).Some? && ReadSpec(File(key), key.thread, env.codec).events == old(Log(key)).events + [r.value.record]
      ensures r.Some? ==>
        Bytes(key) == AppendedFile(old(Bytes(key)), key.thread, Attempt(values, env.uuid(old(drawn)), env.iso(now)), env.codec)
    {
      hide KeyMap, Valid, ScanFile;
      if !(ValidThreadId(key.thread) && values.Valid()) {
        return None;
      }
      PreparePath(key, now);
      var state := State(key);
      if values.dedupKey in state.dedupEvents {
        return Some(JournalAppend(state.dedupEvents[values.dedupKey], true));
      }
      var record := WriteRecord(key, state, values, now);
      r := Some(JournalAppend(record, false));
    }

    /** The write itself: one full line, then the cached state moves on. */
    method WriteRecord(key: ThreadKey, state: WriterState, values: Values, now: int) returns (record: Event)
      requires Valid() && values.Valid() && key in disk && key in states && states[key] == state && EndsLine(Bytes(key))
      requires state.nextSequence == Log(key).highWater + 1 && state.dedupEvents == KeyMap(Log(key).events)
      requires values.dedupKey !in Keys(Log(key).events)
      modifies this`disk, this`states, this`drawn
      ensures Valid() && OthersKept(key) && key in states
      ensures drawn == old(drawn) + 1 && EndsLine(Bytes(key))
      ensures record == values.Record(key.thread, old(Log(key)).highWater + 1, env.uuid(old(drawn)), env.iso(now))
      ensures File(key).Some?
      ensures Log(key) == AppendedLog(old(Log(key)), key.thread, Attempt(values, env.uuid(old(drawn)), env.iso(now)))
      ensures Bytes(key) == old(Bytes(key)) + env.codec.Line(record)
    {
      hide KeyMap, Valid, AppendedLog, LogOf, EndsLine;
      record := values.Record(key.thread, state.nextSequence, env.uuid(drawn), env.iso(now));
      Store(key, env.codec.Line(record), now);
      states := states[key := WriterState(state.nextSequence + 1, state.dedupEvents[values.dedupKey := record])];
      drawn := drawn + 1;
      WriteAddsRecord(key, Attempt(values, env.uuid(old(drawn)), env.iso(now)), now);
      AppendKeepsAgreement(key, record);
    }

    /** Opening for append and writing bytes at the end. */
    method Store(key: ThreadKey, line: seq<Byte>, now: int)
      requires key in disk
      modifies this`disk
      ensures disk - {key} == old(disk) - {key} && key in disk
      ensures File(key) == Some(old(Bytes(key)) + line)
      ensures forall k | k != key :: File(k) == old(File(k))
    {
      var directory := disk[key];
      var content := if directory.events.Some? then directory.events.value else [];
      disk := disk[key := directory.(events := Some(content + line), eventsModified := now)];
    }

    /** The written line reads back as exactly one more record. */
    twostate lemma WriteAddsRecord(new key: ThreadKey, new attempt: Attempt, new now: int)
      requires old(Valid()) && attempt.values.Valid()
      requires attempt.eventId == env.uuid(old(drawn)) && attempt.at == env.iso(now)
      requires EndsLine(old(Bytes(key))) && attempt.values.dedupKey !in Keys(old(Log(key)).events)
      requires Bytes(key) == old(Bytes(key)) + env.codec.Line(attempt.RecordAfter(old(Log(key)), key.thread))
      ensures EndsLine(Bytes(key)) && Log(key) == AppendedLog(old(Log(key)), key.thread, attempt)
      ensures Log(key).events == old(Log(key)).events + [attempt.RecordAfter(old(Log(key)), key.thread)]
      ensures Log(key).highWater == old(Log(key)).highWater + 1
    {
      assert old(FreshIds(key));
      AppendAddsRecord(old(Bytes(key)), key.thread, attempt, env.codec);
    }

    /** Writing one line and advancing the cached state keeps every cache in step with its file. */
    twostate lemma AppendKeepsAgreement(new key: ThreadKey, new record: Event)
      requires old(Valid()) && key in states && EndsLine(Bytes(key))
      requires drawn == old(drawn) + 1 && record.eventId == env.uuid(old(drawn))
      requires forall k | k != key :: File(k) == old(File(k)) && (k in states ==> k in old(states) && states[k] == old(states)[k])
      requires File(key).Some?
      requires Log(key).events == old(Log(key)).events + [record]
      requires states[key].nextSequence == Log(key).highWater + 1
      requires states[key].dedupEvents == KeyMap(old(Log(key)).events)[record.dedupKey := record]
      ensures Valid()
    {
      hide KeyMap, ScanFile;
      KeyMapSnoc(old(Log(key)).events, record);
      forall k | k in states ensures Agrees(k) {
        assert k != key ==> old(Agrees(k));
      }
      forall k ensures FreshIds(k) {
        assert old(FreshIds(k));
        assert k != key ==> Log(k) == old(Log(k));
      }
    }

    /** The whole import of a view, one append at a time. */
    method AppendHistory(key: ThreadKey, view: ThreadView, skip: set<string>, now: int)
      returns (r: Option<seq<JournalAppend>>)
      requires Valid()
      modifies this`disk, this`states, this`drawn
      ensures Valid() && OthersKept(key)
      ensures r.Some? <==> ValidThreadId(key.thread)
      ensures r.Some? ==>
        Position(key) == AppendAll(old(Position(key)), key.thread, ImportRequests(key.thread, view, skip), env, now)
      ensures r.Some? ==> Log(key).events == old(Log(key)).events + NewRecords(r.value)
      ensures r.Some? ==> HistoryRecords.Imports(old(Log(key)).events, NewRecords(r.value), key.thread, view, skip)
    {
      hide Valid, Log, AppendNext, AppendAll, NewRecords, AllTurnRequests, ValidThreadId, HistoryRecords.Imports;
      var first := Append(key, OpenedValues(key.thread), now);
      if first.None? {
        return None;
      }
      var appended := [first.value];
      ghost var start, turnRequests := old(Position(key)), [];
      AppendAllOne(start, key.thread, OpenedValues(key.thread), env, now);
      NewRecordsOne(first.value);
      AllTurnRequestsNone(key.thread, skip);
      assert [OpenedValues(key.thread)] + turnRequests == [OpenedValues(key.thread)];
      for turnIndex := 0 to |view.turns|
        invariant Valid() && OthersKept(key)
        invariant turnRequests == AllTurnRequests(key.thread, view.turns[..turnIndex], skip)
        invariant Position(key) == AppendAll(start, key.thread, [OpenedValues(key.thread)] + turnRequests, env, now)
        invariant Log(key).events == start.log.events + NewRecords(appended)
      {
        AllTurnRequestsSnoc(key.thread, view.turns, turnIndex, skip);
        var turn := view.turns[turnIndex];
        if turn.NotATurn? || TurnId(turnIndex, turn) in skip {
          TurnRequestsNone(key.thread, turnIndex, turn, skip);
          continue;
        }
        ghost var more := TurnRequests(key.thread, turnIndex, turn, skip);
        appended := ImportTurn(key, turnIndex, turn, skip, now, appended, start, [OpenedValues(key.thread)] + turnRequests);
        assert [OpenedValues(key.thread)] + turnRequests + more == [OpenedValues(key.thread)] + (turnRequests + more);
        turnRequests := turnRequests + more;
      }
      assert view.turns[..|view.turns|] == view.turns;
      appended := ImportOne(key, BaselineValues(key.thread, view.watermark), now, appended, start,
                            [OpenedValues(key.thread)] + turnRequests);
      HistoryRecords.ImportRecords(start, key.thread, view, skip, env, now);
      assert Log(key).events[|start.log.events|..] == NewRecords(appended);
      return Some(appended);
    }

    /** One turn of an import: its start, its items, its end. */
    method ImportTurn(key: ThreadKey, turnIndex: nat, turn: TurnEntry, ghost skip: set<string>, now: int,
                      before: seq<JournalAppend>, ghost start: Progress, ghost requests: seq<Values>)
      returns (appended: seq<JournalAppend>)
      requires Valid() && ValidThreadId(key.thread) && turn.TurnEntry? && TurnId(turnIndex, turn) !in skip
      requires Position(key) == AppendAll(start, key.thread, requests, env, now)
      requires Log(key).events == start.log.events + NewRecords(before)
      modifies this`disk, this`states, this`drawn
      ensures Valid() && OthersKept(key)
      ensures Position(key)
        == AppendAll(start, key.thread, requests + TurnRequests(key.thread, turnIndex, turn, skip), env, now)
      ensures Log(key).events == start.log.events + NewRecords(appended)
    {
      hide Valid, Log, Position, AppendNext, AppendAll, NewRecords, TurnRequests;
      ghost var asked := [StartValues(key.thread, turnIndex, turn)];
      appended := ImportOne(key, StartValues(key.thread, turnIndex, turn), now, before, start, requests);
      var turnId := TurnId(turnIndex, turn);
      for itemIndex := 0 to |turn.items|
        invariant Valid() && OthersKept(key)
        invariant asked == [StartValues(key.thread, turnIndex, turn)]
          + ItemRequests(key.thread, turnId, turn.items[..itemIndex])
        invariant Position(key) == AppendAll(start, key.thread, requests + asked, env, now)
        invariant Log(key).events == start.log.events + NewRecords(appended)
      {
        var item := turn.items[itemIndex];
        assert turn.items[..itemIndex + 1][..itemIndex] == turn.items[..itemIndex];
        if item.Some? && item.value.HistoryItem? {
          var values := ItemValues(key.thread, turnId, item.value, itemIndex);
          appended := ImportOne(key, values, now, appended, start, requests + asked);
          assert requests + asked + [values] == requests + (asked + [values]);
          asked := asked + [values];
        }
      }
      assert turn.items[..|turn.items|] == turn.items;
      var terminal := TerminalKind(StatusOf(turn));
      if terminal.Some? {
        var values := EndValues(key.thread, turnId, terminal.value, StatusOf(turn), turn.details);
        appended := ImportOne(key, values, now, appended, start, requests + asked);
        assert requests + asked + [values] == requests + (asked + [values]);
        asked := asked + [values];
      }
      TurnRequestsParts(key.thread, turnIndex, turn, skip);
      assert asked == TurnRequests(key.thread, turnIndex, turn, skip);
    }

    /** One step of an import. */
    method ImportOne(key: ThreadKey, values: Values, now: int, appended: seq<JournalAppend>,
                     ghost start: Progress, ghost requests: seq<Values>)
      returns (all: seq<JournalAppend>)
      requires Valid() && ValidThreadId(key.thread) && values.Valid()
      requires Position(key) == AppendAll(start, key.thread, requests, env, now)
      requires Log(key).events == start.log.events + NewRecords(appended)
      modifies this`disk, this`states, this`drawn
      ensures Valid() && OthersKept(key)
      ensures Position(key) == AppendAll(start, key.thread, requests + [values], env, now)
      ensures Log(key).events == start.log.events + NewRecords(all)
      ensures |all| == |appended| + 1 && appended <= all && all[|appended|].record.dedupKey == values.dedupKey
      ensures !all[|appended|].duplicate ==> HoldsValues(all[|appended|].record, key.thread, values)
    {
      hide Valid, Log, Position, AppendNext, AppendAll, NewRecords;
      var r := Append(key, values, now);
      all := appended + [r.value];
      AppendAllSnoc(start, key.thread, requests, values, env, now);
      NewRecordsSnoc(appended, r.value);
    }

    /** The answer to one alias: its record, or an older one under its key. */
    predicate Attached(a: JournalAppend, thread: string, link: AliasLink) {
      && link.source.Some? && a.record.dedupKey == AliasKey(link.turnId, link.target, link.source.value, link.sourceId)
      && (!a.duplicate ==>
            && a.record.kind == AliasAttached && a.record.source == CodexHistory && a.record.threadId == thread
            && a.record.turnId == Some(link.turnId) && a.record.itemId == Some(link.sourceId) && a.record.data.alias == Some(link))
    }

    predicate AllAttached(answers: seq<JournalAppend>, thread: string, links: seq<AliasLink>) {
      |answers| == |links| && forall i | 0 <= i < |links| :: Attached(answers[i], thread, links[i])
    }

    lemma NoneAttached(thread: string, links: seq<AliasLink>)
      ensures AllAttached([], thread, links[..0])
    {
    }

    lemma OneMoreAttached(before: seq<JournalAppend>, after: seq<JournalAppend>, thread: string, links: seq<AliasLink>, i: nat)
      requires i < |links| && links[i].source.Some? && AllAttached(before, thread, links[..i])
      requires |after| == |before| + 1 && before <= after && after[|before|].record.dedupKey == AliasValues(links[i]).dedupKey
      requires !after[|before|].duplicate ==> HoldsValues(after[|before|].record, thread, AliasValues(links[i]))
      ensures AllAttached(after, thread, links[..i + 1])
    {
      assert forall j | 0 <= j < i :: after[j] == before[j];
    }

    /** Records the alias suggestions, in order. */
    method AttachAliases(key: ThreadKey, aliases: seq<AliasLink>, now: int) returns (r: Option<seq<JournalAppend>>)
      requires Valid()
      requires forall a | a in aliases :: a.source.Some? && !a.source.value.OtherSource?
      modifies this`disk, this`states, this`drawn
      ensures Valid() && OthersKept(key)
      ensures r.None? ==> !ValidThreadId(key.thread) && disk == old(disk)
      ensures r.Some? ==> Position(key) == AppendAll(old(Position(key)), key.thread, AliasRequests(aliases), env, now)
      ensures r.Some? ==> Log(key).events == old(Log(key)).events + NewRecords(r.value)
      ensures r.Some? ==> AllAttached(r.value, key.thread, aliases)
    {
      hide Valid, Log, AppendNext, AllAttached, HoldsValues;
      NoneAttached(key.thread, aliases);
      var appended: seq<JournalAppend> := [];
      ghost var start := old(Position(key));
      for i := 0 to |aliases|
        invariant Valid() && OthersKept(key)
        invariant i > 0 ==> ValidThreadId(key.thread)
        invariant i == 0 ==> disk == old(disk)
        invariant Position(key) == AppendAll(start, key.thread, AliasRequests(aliases[..i]), env, now)
        invariant Log(key).events == start.log.events + NewRecords(appended)
        invariant AllAttached(appended, key.thread, aliases[..i])
      {
        assert aliases[..i + 1][..i] == aliases[..i];
        if !ValidThreadId(key.thread) {
          return None;
        }
        ghost var before := appended;
        appended := ImportOne(key, AliasValues(aliases[i]), now, appended, start, AliasRequests(aliases[..i]));
        OneMoreAttached(before, appended, key.thread, aliases, i);
      }
      assert aliases[..|aliases|] == aliases;
      r := Some(appended);
    }

    /** Moves a thread's directory into the trash under a stamped name, and forgets its cached state. */
    method TrashThread(key: ThreadKey, stamp: string, now: int) returns (moved: Option<ThreadKey>)
      requires Valid()
      modifies this`disk, this`states, this`trash
      ensures Valid() && OthersKept(key)
      ensures ValidThreadId(key.thread) ==> key !in disk && key !in states
      ensures moved == if ValidThreadId(key.thread) && old(key in disk) then Some(Stamped(key, stamp)) else None
      ensures !ValidThreadId(key.thread) ==> disk == old(disk) && states == old(states)
      ensures moved.None? ==> trash == old(trash)
      ensures moved.Some? ==> trash == InTrash(old(trash), moved.value, old(disk)[key], now)
      ensures moved.Some? ==>
        && moved.value.project == key.project && moved.value.thread == key.thread + "-" + stamp && moved.value in trash
        && trash - {moved.value} == old(trash) - {moved.value}
        && (moved.value !in old(trash) ==> trash[moved.value] == old(disk)[key])
    {
      if !ValidThreadId(key.thread) {
        return None;
      }
      states := states - {key};
      if key !in disk {
        DroppedKeepsAgreement();
        return None;
      }
      moved := Some(Stamped(key, stamp));
      trash := InTrash(trash, moved.value, disk[key], now);
      disk := disk - {key};
      DroppedKeepsAgreement();
    }

    /** Dropping directories together with their cached states keeps the rest right. */
    twostate lemma DroppedKeepsAgreement()
      requires old(Valid()) && drawn == old(drawn)
      requires forall k | k in disk :: k in old(disk) && disk[k] == old(disk)[k]
      requires forall k | k in states :: k in old(states) && states[k] == old(states)[k]
      requires forall k | k in states :: k in disk <==> k in old(disk)
      ensures Valid()
    {
      forall k | k in states ensures Agrees(k) {
        assert old(Agrees(k));
        assert File(k) == old(File(k));
      }
      forall k ensures FreshIds(k) {
        assert old(FreshIds(k));
        if k !in disk {
          assert SplitLines([]) == [];
        } else {
          assert Log(k) == old(Log(k));
        }
      }
    }

    /** Removes the directories of the given projects, the trash included, that are older than the retention time. */
    method PruneRetention(projects: seq<string>, now: int, days: int) returns (removed: nat)
      requires Valid()
      modifies this`disk, this`states, this`trash
      ensures Valid()
      ensures var cutoff := now - Max(1, days) * DAY;
        var gone, emptied := Gone(old(disk), projects, cutoff, false), Gone(old(trash), projects, cutoff, true);
        && disk == old(disk) - gone && states == old(states) - gone && trash == old(trash) - emptied
        && removed == |gone| + |emptied|
      ensures var oldest := now - 86400 * (if days < 1 then 1 else days);
        && (forall k | k in old(disk) ::
              var own := old(disk)[k];
              var modified := if own.events.Some? then own.eventsModified else own.directoryModified;
              if k.project in projects && modified < oldest then k !in disk && k !in states
              else k in disk && disk[k] == own && (k in states <==> k in old(states)) && (k in states ==> states[k] == old(states)[k]))
        && (forall k | k in old(trash) ::
              if k.project in projects && old(trash)[k].directoryModified < oldest then k !in trash
              else k in trash && trash[k] == old(trash)[k])
        && disk.Keys <= old(disk.Keys) && trash.Keys <= old(trash.Keys)
    {
      hide Valid, Gone;
      var cutoff := now - Max(1, days) * DAY;
      removed := 0;
      NoneGone(disk, states, cutoff, false);
      NoneGone(trash, trash, cutoff, true);
      for i := 0 to |projects|
        invariant Valid()
        invariant var gone, emptied := Gone(old(disk), projects[..i], cutoff, false), Gone(old(trash), projects[..i], cutoff, true);
          && disk == old(disk) - gone && states == old(states) - gone && trash == old(trash) - emptied
          && removed == |gone| + |emptied|
      {
        GoneSnoc(old(disk), old(states), projects, i, cutoff, false);
        GoneSnoc(old(trash), old(trash), projects, i, cutoff, true);
        var more := PruneProject(projects[i], cutoff);
        var emptied := PruneTrash(projects[i], cutoff);
        removed := removed + |more| + |emptied|;
      }
      assert projects[..|projects|] == projects;
      GoneMembers(old(disk), projects, cutoff, false);
      GoneMembers(old(trash), projects, cutoff, true);
    }

    method PruneProject(project: string, cutoff: int) returns (removed: set<ThreadKey>)
      requires Valid()
      modifies this`disk, this`states
      ensures Valid()
      ensures removed == Gone(old(disk), [project], cutoff, false)
      ensures disk == old(disk) - removed && states == old(states) - removed
    {
      hide Valid, Expired;
      removed := {};
      var pending := set k | k in disk && k.project == project;
      while pending != {}
        invariant Valid()
        invariant pending <= set k | k in old(disk) && k.project == project
        invariant removed
          == set k | k in old(disk) && k.project == project && k !in pending && Expired(old(disk)[k], cutoff, false)
        invariant disk == old(disk) - removed && states == old(states) - removed
        decreases |pending|
      {
        var key :| key in pending;
        pending := pending - {key};
        if Expired(disk[key], cutoff, false) {
          MinusTwice(old(disk), removed, {key});
          MinusTwice(old(states), removed, {key});
          Remove(key);
          removed := removed + {key};
        }
      }
    }

    /** The directories inside the trash go by their own times, and no cached state is theirs. */
    method PruneTrash(project: string, cutoff: int) returns (removed: set<ThreadKey>)
      requires Valid()
      modifies this`trash
      ensures Valid()
      ensures removed == Gone(old(trash), [project], cutoff, true) && trash == old(trash) - removed
    {
      hide Expired;
      removed := {};
      var pending := set k | k in trash && k.project == project;
      while pending != {}
        invariant pending <= set k | k in old(trash) && k.project == project
        invariant removed
          == set k | k in old(trash) && k.project == project && k !in pending && Expired(old(trash)[k], cutoff, true)
        invariant trash == old(trash) - removed
        decreases |pending|
      {
        var key :| key in pending;
        pending := pending - {key};
        if Expired(trash[key], cutoff, true) {
          MinusTwice(old(trash), removed, {key});
          trash := trash - {key};
          removed := removed + {key};
        }
      }
      DroppedKeepsAgreement();
    }

    method Remove(key: ThreadKey)
      requires Valid() && key in disk
      modifies this`disk, this`states
      ensures Valid() && disk == old(disk) - {key} && states == old(states) - {key}
    {
      states := states - {key};
      disk := disk - {key};
      DroppedKeepsAgreement();
    }
  }

  function Stamped(key: ThreadKey, stamp: string): ThreadKey {
    ThreadKey(key.project, key.thread + "-" + stamp)
  }

  /** Moving onto a directory that is there puts the moved one inside it. */
  function InTrash(
      trash: map<ThreadKey, ThreadDirectory>, name: ThreadKey, moved: ThreadDirectory, now: int): map<ThreadKey, ThreadDirectory>
  {
    trash[name := if name in trash then trash[name].(directoryModified := now) else moved]
  }

  /** Live journals age by their file, when there is one; what is in the trash ages by its directory. */
  predicate Expired(directory: ThreadDirectory, cutoff: int, inTrash: bool) {
    (if !inTrash && directory.events.Some? then directory.eventsModified else directory.directoryModified) < cutoff
  }

  /** The directories that a pruning of some projects removes. */
  ghost function Gone(disk: map<ThreadKey, ThreadDirectory>, projects: seq<string>, cutoff: int, inTrash: bool): set<ThreadKey> {
    set k | k in disk && k.project in projects && Expired(disk[k], cutoff, inTrash)
  }

  lemma GoneMembers(disk: map<ThreadKey, ThreadDirectory>, projects: seq<string>, cutoff: int, inTrash: bool)
    ensures forall k | k in disk ::
      var own := disk[k];
      (k in Gone(disk, projects, cutoff, inTrash)
       <==> k.project in projects
            && (if own.events.Some? && !inTrash then own.eventsModified else own.directoryModified) < cutoff)
    ensures Gone(disk, projects, cutoff, inTrash) <= disk.Keys
  {
  }

  lemma NoneGone<V>(disk: map<ThreadKey, ThreadDirectory>, states: map<ThreadKey, V>, cutoff: int, inTrash: bool)
    ensures Gone(disk, [], cutoff, inTrash) == {} && disk - {} == disk && states - {} == states
  {
  }

  lemma GoneSnoc<V>(
      disk: map<ThreadKey, ThreadDirectory>, states: map<ThreadKey, V>, projects: seq<string>, i: nat, cutoff: int, inTrash: bool)
    requires i < |projects|
    ensures var before := Gone(disk, projects[..i], cutoff, inTrash);
      var more := Gone(disk - before, [projects[i]], cutoff, inTrash);
      && Gone(disk, projects[..i + 1], cutoff, inTrash) == before + more && |before + more| == |before| + |more|
      && disk - before - more == disk - (before + more) && states - before - more == states - (before + more)
  {
    var before := Gone(disk, projects[..i], cutoff, inTrash);
    var more := Gone(disk - before, [projects[i]], cutoff, inTrash);
    assert projects[..i + 1] == projects[..i] + [projects[i]];
    assert before !! more;
    assert Gone(disk, projects[..i + 1], cutoff, inTrash) == before + more;
    MinusTwice(disk, before, more);
    MinusTwice(states, before, more);
  }

  lemma MinusTwice<K, V>(m: map<K, V>, a: set<K>, b: set<K>)
    ensures m - a - b == m - (a + b)
  {
  }

  /** The records that were newly written, in order. */
  function NewRecords(appended: seq<JournalAppend>): seq<Event> {
    if appended == [] then []
    else
      var last := appended[|appended| - 1];
      NewRecords(appended[..|appended| - 1]) + if last.duplicate then [] else [last.record]
  }

  lemma NewRecordsSnoc(appended: seq<JournalAppend>, last: JournalAppend)
    ensures NewRecords(appended + [last]) == NewRecords(appended) + if last.duplicate then [] else [last.record]
  {
  }

  lemma NewRecordsOne(only: JournalAppend)
    ensures NewRecords([only]) == if only.duplicate then [] else [only.record]
  {
  }
}
