/** `_read_file`: the reading loops, proved against the scan of `JournalFile`. */
module JournalReader {
  import opened Records
  import opened JournalFile

  method ReadFile(file: Option<seq<Byte>>, thread: string, codec: Codec) returns (r: JournalRead)
    ensures r == ReadSpec(file, thread, codec)
    ensures file.None? ==> r == JournalRead([], 0, Absent, false, false)
    ensures file.Some? ==> r.exists_ && Labelled(r.coverage, r.events, r.damaged)
    ensures file.Some? ==>
      (!r.damaged
       <==> (file.value == [] || file.value[|file.value| - 1] == 10)
            && Intact(FullLines(SplitLines(file.value)), r.events, thread, codec))
  {
    hide Intact, FullLines, SplitLines, Labelled, CoverageOf;
    if file.None? {
      return JournalRead([], 0, Absent, false, false);
    }
    var content := file.value;
    var damaged := !EndsLine(content);
    var lines := SplitLines(content);
    ghost var start := Scan([], 1, 0, damaged);
    var events, seenIds, seenKeys := [], {}, {};
    var expected, highWater := 1, 0;
    for index := 0 to |lines|
      invariant 0 <= expected && 0 <= highWater
      invariant Scan(events, expected, highWater, damaged) == ScanLines(start, lines[..index], thread, codec)
      invariant seenIds == EventIds(events) && seenKeys == Keys(events)
    {
      var line := lines[index];
      assert lines[..index + 1][..index] == lines[..index];
      if Blank(line) {
        continue;
      }
      var accepted := Accept(codec.parse(line), thread);
      if accepted.None? {
        damaged := true;
        continue;
      }
      var event := accepted.value;
      if event.sequence > highWater {
        highWater := event.sequence;
      }
      if event.sequence < expected {
        damaged := true;
        continue;
      }
      if event.sequence > expected {
        damaged := true;
      }
      expected := event.sequence + 1;
      if event.eventId in seenIds || event.dedupKey in seenKeys {
        damaged := true;
        continue;
      }
      seenIds, seenKeys := seenIds + {event.eventId}, seenKeys + {event.dedupKey};
      events := events + [event];
    }
    assert lines[..|lines|] == lines;
    ReadSays(content, thread, codec);
    var coverage := Classify(events, damaged);
    r := JournalRead(events, highWater, coverage, damaged, true);
  }

  /** The reader's test of one turn: the kinds present, or the live kinds when there are live records. */
  predicate ClosedByKinds(events: seq<Event>)
    ensures ClosedByKinds(events) <==> TurnClosed(events)
  {
    var live := set e | e in events && e.source == CodexStream;
    var kinds := set e | e in events && (live != {} ==> e in live) :: e.kind;
    assert live != {} <==> HasLive(events) by {
      if HasLive(events) {
        var e :| e in events && e.source == CodexStream;
        assert e in live;
      }
    }
    assert forall e | e in events && (live != {} ==> e in live) :: e.kind in kinds;
    TurnStarted in kinds && exists k :: k in kinds && k.Terminal()
  }

  /** The per-turn lists of the coverage check. */
  method GroupByTurn(domain: seq<Event>) returns (turns: map<string, seq<Event>>)
    ensures forall t :: t in turns <==> TurnEvents(domain, t) != []
    ensures forall t | t in turns :: turns[t] == TurnEvents(domain, t)
  {
    turns := map[];
    for i := 0 to |domain|
      invariant forall t :: t in turns <==> TurnEvents(domain[..i], t) != []
      invariant forall t | t in turns :: turns[t] == TurnEvents(domain[..i], t)
    {
      var event := domain[i];
      assert domain[..i + 1][..i] == domain[..i];
      if NamesTurn(event) {
        var t := event.turnId.value;
        turns := turns[t := (if t in turns then turns[t] else []) + [event]];
      }
    }
    assert domain[..|domain|] == domain;
  }

  lemma TurnEventsNonEmpty(events: seq<Event>, turn: string)
    ensures TurnEvents(events, turn) != [] <==> exists e :: e in events && e.InTurn(turn)
  {
  }

  method Classify(events: seq<Event>, damaged: bool) returns (coverage: Coverage)
    ensures coverage == CoverageOf(events, damaged)
  {
    var domain := Domain(events);
    if damaged {
      return Partial;
    }
    if domain == [] {
      return Absent;
    }
    var turns := GroupByTurn(domain);
    assert forall e | e in domain && NamesTurn(e) :: e.turnId.value in turns by {
      forall e | e in domain && NamesTurn(e) ensures e.turnId.value in turns {
        TurnEventsNonEmpty(domain, e.turnId.value);
        assert e.InTurn(e.turnId.value);
      }
    }
    if turns == map[] {
      return if exists e :: e in domain && e.kind == BaselineImported then Complete else Partial;
    }
    var pending := turns.Keys;
    var t0 :| t0 in turns;
    TurnEventsNonEmpty(domain, t0);
    while pending != {}
      invariant pending <= turns.Keys
      invariant forall t | t in turns && t !in pending :: TurnClosed(turns[t])
      decreases |pending|
    {
      var t :| t in pending;
      if !ClosedByKinds(turns[t]) {
        TurnEventsNonEmpty(domain, t);
        return Partial;
      }
      pending := pending - {t};
    }
    coverage := Complete;
  }
}
