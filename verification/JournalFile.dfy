/**
The journal file as bytes: splitting into lines, judging one line, the tolerant reader
and the repair of a torn tail.
*/
module JournalFile {
  import opened Records

  const RETURN: Byte := 13
  const JOURNAL_VERSION := 1

  // ----- one decoded line -----

  /** A nullable string field of the envelope. */
  datatype Field = Null | Text(value: string) | NotText

  /** A JSON object; `None` stands for a field that is missing or of the wrong type. */
  datatype Envelope = Envelope(
    version: Option<int>,
    sequence: Option<int>,
    eventId: Option<string>,
    dedupKey: Option<DedupKey>,
    kind: Option<Kind>,
    source: Option<Source>,
    threadId: Option<string>,
    at: Option<string>,
    data: Option<Data>,
    turnId: Field,
    itemId: Field,
    eventType: string,
    methodName: string)

  datatype RawLine = NotJson | NotObject | Object(envelope: Envelope)

  predicate WellFormed(e: Event) {
    e.sequence >= 1 && e.eventId != "" && e.at != "" && !e.source.OtherSource? && e.kind != OtherKind("")
  }

  function FieldOf(s: Option<string>): Field {
    match s
    case None => Null
    case Some(text) => Text(text)
  }

  /** The JSON object the writer serializes for a record. */
  function ToEnvelope(e: Event): Envelope {
    Envelope(Some(JOURNAL_VERSION), Some(e.sequence), Some(e.eventId), Some(e.dedupKey), Some(e.kind), Some(e.source),
             Some(e.threadId), Some(e.at), Some(e.data), FieldOf(e.turnId), FieldOf(e.itemId), e.eventType, e.methodName)
  }

  function FieldText(f: Field): Option<string> {
    match f
    case Text(s) => Some(s)
    case _ => None
  }

  predicate Usable(s: Option<string>) {
    s.Some? && s.value != ""
  }

  /** The version, envelope and sequence checks, in the reader's order. */
  function Accept(line: RawLine, thread: string): Option<Event> {
    if !line.Object? then None
    else
      var o := line.envelope;
      if o.version != Some(JOURNAL_VERSION) then None
      else if !Usable(o.eventId) || o.dedupKey.None? || o.kind.None? || o.source.None? || !Usable(o.at) then None
      else if o.kind.value == OtherKind("") || o.source.value.OtherSource? || o.threadId != Some(thread) || o.data.None? then None
      else if o.turnId.NotText? || o.itemId.NotText? then None
      else if o.sequence.None? || o.sequence.value < 1 then None
      else
        Some(Event(o.sequence.value, o.eventId.value, o.dedupKey.value, o.kind.value, o.eventType, o.methodName,
                   o.source.value, thread, FieldText(o.turnId), FieldText(o.itemId), o.at.value, o.data.value))
  }

  /** The reader accepts exactly what the writer serializes for a well-formed record of the thread. */
  lemma AcceptIff(line: RawLine, thread: string, e: Event)
    ensures Accept(line, thread) == Some(e) <==> WellFormed(e) && e.threadId == thread && line == Object(ToEnvelope(e))
    ensures Accept(line, thread) == Some(e) ==>
      && line.Object? && line.envelope.version == Some(1)
      && e.sequence >= 1 && e.eventId != "" && e.at != "" && e.source in {CodexStream, CodexHistory}
  {
    if Accept(line, thread) == Some(e) {
      var o := line.envelope;
      assert FieldOf(FieldText(o.turnId)) == o.turnId && FieldOf(FieldText(o.itemId)) == o.itemId;
    }
  }

  /** The JSON encoder and decoder, as two functions. */
  datatype Codec = Codec(encode: Event -> seq<Byte>, parse: seq<Byte> -> RawLine)
  {
    /** Decoding inverts encoding; an encoded record is one non-blank line. */
    ghost predicate Valid() {
      forall e: Event ::
        && parse(encode(e)) == Object(ToEnvelope(e))
        && NoBreak(encode(e))
        && !Blank(encode(e))
    }

    function Line(e: Event): seq<Byte> {
      encode(e) + [NEWLINE]
    }
  }

  // ----- lines -----

  predicate NoBreak(bytes: seq<Byte>) {
    NEWLINE !in bytes && RETURN !in bytes
  }

  /** ASCII whitespace only, as `bytes.strip` sees it. */
  predicate Blank(bytes: seq<Byte>) {
    forall b | b in bytes :: b == 32 || 9 <= b <= 13
  }

  predicate EndsLine(content: seq<Byte>) {
    content == [] || content[|content| - 1] == NEWLINE
  }

  /** The index of the first line break, or the length when there is none. */
  function BreakAt(content: seq<Byte>): (k: nat)
    ensures k <= |content|
    ensures NoBreak(content[..k])
    ensures k < |content| ==> content[k] == NEWLINE || content[k] == RETURN
  {
    if content == [] || content[0] == NEWLINE || content[0] == RETURN then 0
    else
      assert forall j | 0 <= j <= |content| - 1 :: content[..j + 1] == [content[0]] + content[1..][..j];
      1 + BreakAt(content[1..])
  }

  /** `bytes.splitlines`: breaks at LF, CR and CR LF, no empty last line. */
  function SplitLines(content: seq<Byte>): seq<seq<Byte>>
    decreases |content|
  {
    if content == [] then []
    else
      var k := BreakAt(content);
      if k == |content| then [content]
      else [content[..k]] + SplitLines(content[AfterBreak(content, k)..])
  }

  function AfterBreak(content: seq<Byte>, k: nat): (next: nat)
    requires k < |content|
    ensures k < next <= |content|
  {
    if content[k] == RETURN && k + 1 < |content| && content[k + 1] == NEWLINE then k + 2 else k + 1
  }

  lemma BreakAtUnique(content: seq<Byte>, k: nat)
    requires k <= |content| && NoBreak(content[..k])
    requires k < |content| ==> content[k] == NEWLINE || content[k] == RETURN
    ensures BreakAt(content) == k
  {
  }

  lemma SplitSingle(bytes: seq<Byte>)
    requires NoBreak(bytes) && bytes != []
    ensures SplitLines(bytes) == [bytes]
    ensures SplitLines(bytes + [NEWLINE]) == [bytes]
  {
    BreakAtUnique(bytes, |bytes|);
    var whole := bytes + [NEWLINE];
    assert whole[..|bytes|] == bytes;
    BreakAtUnique(whole, |bytes|);
    assert whole[AfterBreak(whole, |bytes|)..] == [];
  }

  lemma {:induction false} SplitConcat(left: seq<Byte>, right: seq<Byte>)
    requires EndsLine(left)
    ensures SplitLines(left + right) == SplitLines(left) + SplitLines(right)
    decreases |left|
  {
    if left == [] {
      assert left + right == right;
    } else {
      var whole := left + right;
      var k := BreakAt(left);
      assert left[..|left|] == left && NEWLINE in left;
      assert whole[..k] == left[..k];
      BreakAtUnique(whole, k);
      var next := AfterBreak(left, k);
      assert AfterBreak(whole, k) == next;
      assert whole[next..] == left[next..] + right;
      SplitConcat(left[next..], right);
    }
  }

  // ----- the reader -----

  datatype Scan = Scan(events: seq<Event>, expected: nat, highWater: nat, damaged: bool)
  {
    /** One non-blank line's effect. */
    function Take(line: Option<Event>): Scan {
      match line
      case None => this.(damaged := true)
      case Some(e) =>
        var high := if e.sequence > highWater then e.sequence else highWater;
        if e.sequence < expected then this.(highWater := high, damaged := true)
        else if e.eventId in EventIds(events) || e.dedupKey in Keys(events) then
          Scan(events, e.sequence + 1, high, true)
        else
          Scan(events + [e], e.sequence + 1, high, damaged || e.sequence > expected)
    }

    ghost predicate Sound(thread: string) {
      && expected == highWater + 1
      && Ordered(events)
      && (forall e | e in events :: WellFormed(e) && e.threadId == thread && e.sequence <= highWater)
      && (!damaged ==> highWater == |events| && forall i | 0 <= i < |events| :: events[i].sequence == i + 1)
    }
  }

  function Step(scan: Scan, line: seq<Byte>, thread: string, codec: Codec): Scan {
    if Blank(line) then scan else scan.Take(Accept(codec.parse(line), thread))
  }

  function ScanLines(start: Scan, lines: seq<seq<Byte>>, thread: string, codec: Codec): Scan {
    if lines == [] then start
    else Step(ScanLines(start, lines[..|lines| - 1], thread, codec), lines[|lines| - 1], thread, codec)
  }

  datatype Coverage = Absent | Partial | Complete

  datatype JournalRead = JournalRead(
    events: seq<Event>, cursor: nat, coverage: Coverage, damaged: bool, exists_: bool)

  /** The scan of a file's bytes. */
  function ScanFile(content: seq<Byte>, thread: string, codec: Codec): Scan {
    ScanLines(Scan([], 1, 0, !EndsLine(content)), SplitLines(content), thread, codec)
  }

  // ----- coverage -----

  /** The kinds that end a turn, or the kind that starts one. */
  predicate IsBoundary(kind: Kind, end: bool) {
    if end then kind.Terminal() else kind == TurnStarted
  }

  ghost predicate HasBoundary(events: seq<Event>, live: bool, end: bool) {
    exists e :: e in events && (live ==> e.source == CodexStream) && IsBoundary(e.kind, end)
  }

  ghost predicate HasLive(events: seq<Event>) {
    exists e :: e in events && e.source == CodexStream
  }

  /** A turn is closed by a start and an end; a turn with live records only by live ones. */
  ghost predicate TurnClosed(events: seq<Event>) {
    && HasBoundary(events, HasLive(events), false)
    && HasBoundary(events, HasLive(events), true)
  }

  predicate NamesTurn(e: Event) {
    e.turnId.Some? && e.turnId.value != ""
  }

  function Domain(events: seq<Event>): (r: seq<Event>)
    ensures forall e :: e in r <==> e in events && e.kind != JournalOpened
  {
    if events == [] then []
    else
      var last := events[|events| - 1];
      assert events == events[..|events| - 1] + [last];
      Domain(events[..|events| - 1]) + if last.kind != JournalOpened then [last] else []
  }

  /** The reader's coverage label, said over the whole record list. */
  ghost function CoverageOf(events: seq<Event>, damaged: bool): Coverage {
    var domain := Domain(events);
    if damaged then Partial
    else if domain == [] then Absent
    else if forall e | e in domain :: !NamesTurn(e) then
      if exists e :: e in domain && e.kind == BaselineImported then Complete else Partial
    else if forall e | e in domain && NamesTurn(e) :: TurnClosed(TurnEvents(domain, e.turnId.value)) then Complete
    else Partial
  }

  /** A record of a turn, of the stream when only that counts. */
  predicate Counts(e: Event, turn: string, live: bool) {
    e.turnId == Some(turn) && e.kind != JournalOpened && (live ==> e.source == CodexStream)
  }

  ghost predicate Started(events: seq<Event>, turn: string, live: bool) {
    exists e :: e in events && Counts(e, turn, live) && e.kind == TurnStarted
  }

  ghost predicate Ended(events: seq<Event>, turn: string, live: bool) {
    exists e :: e in events && Counts(e, turn, live) && (e.kind == TurnCompleted || e.kind == TurnError || e.kind == TurnInterrupted)
  }

  ghost predicate Streamed(events: seq<Event>, turn: string) {
    exists e :: e in events && Counts(e, turn, true)
  }

  /** A turn with a start and an end; both must be the stream's when the stream has any record of it. */
  ghost predicate WholeTurn(events: seq<Event>, turn: string) {
    Started(events, turn, Streamed(events, turn)) && Ended(events, turn, Streamed(events, turn))
  }

  /** Some record besides the opening one names a turn. */
  ghost predicate HasTurn(events: seq<Event>) {
    exists e :: e in events && e.kind != JournalOpened && NamesTurn(e)
  }

  /** Which label some records get. */
  ghost predicate Labelled(coverage: Coverage, events: seq<Event>, damaged: bool) {
    && (damaged ==> coverage == Partial)
    && (!damaged ==> (coverage == Absent <==> forall e | e in events :: e.kind == JournalOpened))
    && (!damaged && HasTurn(events) ==>
          (coverage == Complete <==> forall e | e in events && e.kind != JournalOpened && NamesTurn(e) :: WholeTurn(events, e.turnId.value)))
    && (!damaged && !HasTurn(events) ==> (coverage == Complete <==> exists e :: e in events && e.kind == BaselineImported))
  }

  lemma TurnClosedIff(events: seq<Event>, turn: string)
    requires turn != ""
    ensures TurnClosed(TurnEvents(Domain(events), turn)) <==> WholeTurn(events, turn)
  {
    var mine := TurnEvents(Domain(events), turn);
    TurnEventsMembers(Domain(events), turn);
    hide TurnEvents, Domain;
    assert forall e :: e in mine <==> e in events && Counts(e, turn, false);
    assert HasLive(mine) <==> Streamed(events, turn) by {
      if e :| e in events && Counts(e, turn, true) {
        assert e in mine;
      }
      if e :| e in mine && e.source == CodexStream {
        assert Counts(e, turn, true);
      }
    }
    BoundaryIff(events, mine, turn, Streamed(events, turn));
  }

  lemma BoundaryIff(events: seq<Event>, mine: seq<Event>, turn: string, live: bool)
    requires forall e :: e in mine <==> e in events && Counts(e, turn, false)
    ensures HasBoundary(mine, live, false) <==> Started(events, turn, live)
    ensures HasBoundary(mine, live, true) <==> Ended(events, turn, live)
  {
    forall e | e in events && Counts(e, turn, live) ensures e in mine {
      assert Counts(e, turn, false);
    }
    forall e | e in mine && (live ==> e.source == CodexStream) ensures Counts(e, turn, live) {
      assert Counts(e, turn, false);
    }
  }

  /** The label means what it says about turns and their ends. */
  lemma CoverageSays(events: seq<Event>, damaged: bool)
    ensures Labelled(CoverageOf(events, damaged), events, damaged)
  {
    hide TurnEvents, TurnClosed, WholeTurn, Domain;
    var domain := Domain(events);
    assert domain == [] || domain[0] in domain;
    assert HasTurn(events) <==> !forall e | e in domain :: !NamesTurn(e);
    forall e | e in domain && NamesTurn(e)
      ensures TurnClosed(TurnEvents(domain, e.turnId.value)) <==> WholeTurn(events, e.turnId.value)
    {
      TurnClosedIff(events, e.turnId.value);
    }
  }

  /** What reading a thread's file gives; `None` is a missing file. */
  ghost function ReadSpec(file: Option<seq<Byte>>, thread: string, codec: Codec): JournalRead {
    match file
    case None => JournalRead([], 0, Absent, false, false)
    case Some(content) =>
      var scan := ScanFile(content, thread, codec);
      JournalRead(scan.events, scan.highWater, CoverageOf(scan.events, scan.damaged), scan.damaged, true)
  }

  // ----- repair -----

  /** One past the last newline, or 0. */
  function LastLineEnd(content: seq<Byte>): (n: nat)
    ensures n <= |content| && EndsLine(content[..n])
    ensures NEWLINE !in content[n..]
  {
    if EndsLine(content) then |content|
    else
      var front := content[..|content| - 1];
      var n := LastLineEnd(front);
      assert content[..n] == front[..n];
      assert content[n..] == front[n..] + [content[|content| - 1]];
      n
  }

  /** The truncation `_prepare_path` makes before every append. */
  function Repair(content: seq<Byte>): (r: seq<Byte>)
    ensures EndsLine(r) && r <= content
    ensures EndsLine(content) ==> r == content
  {
    content[..LastLineEnd(content)]
  }

  lemma {:induction false} RepairTornTail(content: seq<Byte>, tail: seq<Byte>)
    requires EndsLine(content) && NEWLINE !in tail
    ensures Repair(content + tail) == content
    decreases |tail|
  {
    if tail == [] {
      assert content + tail == content;
    } else {
      var whole, front := content + tail, tail[..|tail| - 1];
      assert whole[|whole| - 1] == tail[|tail| - 1];
      assert whole[..|whole| - 1] == content + front;
      RepairTornTail(content, front);
    }
  }

  // ----- facts about the scan -----

  lemma {:induction false} ScanLinesConcat(start: Scan, left: seq<seq<Byte>>, right: seq<seq<Byte>>, thread: string, codec: Codec)
    ensures ScanLines(start, left + right, thread, codec)
         == ScanLines(ScanLines(start, left, thread, codec), right, thread, codec)
    decreases |right|
  {
    if right == [] {
      assert left + right == left;
    } else {
      var n := |right| - 1;
      assert (left + right)[..|left + right| - 1] == left + right[..n];
      ScanLinesConcat(start, left, right[..n], thread, codec);
    }
  }

  lemma TakeSound(scan: Scan, line: Option<Event>, thread: string)
    requires scan.Sound(thread)
    requires line.Some? ==> WellFormed(line.value) && line.value.threadId == thread
    ensures scan.Take(line).Sound(thread)
  {
  }

  lemma {:induction false} ScanLinesSound(start: Scan, lines: seq<seq<Byte>>, thread: string, codec: Codec)
    requires start.Sound(thread)
    ensures ScanLines(start, lines, thread, codec).Sound(thread)
    decreases |lines|
  {
    if lines != [] {
      var n := |lines| - 1;
      ScanLinesSound(start, lines[..n], thread, codec);
      TakeSound(ScanLines(start, lines[..n], thread, codec), Accept(codec.parse(lines[n]), thread), thread);
    }
  }

  /** Whatever bytes the file holds, the records read are well formed, in order and without repeated ids or keys. */
  lemma ReadSound(content: seq<Byte>, thread: string, codec: Codec)
    ensures ScanFile(content, thread, codec).Sound(thread)
  {
    var start := Scan([], 1, 0, !EndsLine(content));
    assert start.Sound(thread);
    ScanLinesSound(start, SplitLines(content), thread, codec);
  }

  // ----- when a file is undamaged -----

  /** The lines that hold more than white space. */
  function FullLines(lines: seq<seq<Byte>>): seq<seq<Byte>> {
    if lines == [] then []
    else
      var last := lines[|lines| - 1];
      FullLines(lines[..|lines| - 1]) + if forall b | b in last :: b == 32 || 9 <= b <= 13 then [] else [last]
  }

  /** The lines are those of some records of the thread, numbered from 1, no event id or key twice. */
  ghost predicate Intact(lines: seq<seq<Byte>>, records: seq<Event>, thread: string, codec: Codec) {
    && |lines| == |records|
    && (forall i | 0 <= i < |records| ::
          && codec.parse(lines[i]) == Object(ToEnvelope(records[i])) && WellFormed(records[i])
          && records[i].threadId == thread && records[i].sequence == i + 1)
    && forall i, j | 0 <= i < j < |records| ::
      records[i].eventId != records[j].eventId && records[i].dedupKey != records[j].dedupKey
  }

  lemma IntactSnoc(lines: seq<seq<Byte>>, records: seq<Event>, line: seq<Byte>, e: Event, thread: string, codec: Codec)
    ensures Intact(lines + [line], records + [e], thread, codec)
      <==> && Intact(lines, records, thread, codec)
           && Accept(codec.parse(line), thread) == Some(e) && e.sequence == |lines| + 1
           && e.eventId !in EventIds(records) && e.dedupKey !in Keys(records)
  {
    AcceptIff(codec.parse(line), thread, e);
    hide Accept, ToEnvelope, WellFormed;
    var more, all := lines + [line], records + [e];
    if Intact(more, all, thread, codec) {
      assert all[|records|] == e && more[|lines|] == line;
      assert forall i | 0 <= i < |records| :: all[i] == records[i] && more[i] == lines[i];
    }
  }

  lemma IntactFront(lines: seq<seq<Byte>>, records: seq<Event>, line: seq<Byte>, thread: string, codec: Codec)
    requires Intact(lines + [line], records, thread, codec)
    ensures records != [] && records == records[..|records| - 1] + [records[|records| - 1]]
  {
  }

  lemma StepBlank(scan: Scan, line: seq<Byte>, thread: string, codec: Codec)
    requires forall b | b in line :: b == 32 || 9 <= b <= 13
    ensures Step(scan, line, thread, codec) == scan
  {
  }

  /** An undamaged scan goes on undamaged with the next record of the thread only. */
  lemma StepFull(scan: Scan, line: seq<Byte>, thread: string, codec: Codec)
    requires !forall b | b in line :: b == 32 || 9 <= b <= 13
    requires scan.Sound(thread)
    ensures var after := Step(scan, line, thread, codec);
      !after.damaged <==> && !scan.damaged && Accept(codec.parse(line), thread).Some?
                          && var e := Accept(codec.parse(line), thread).value;
                            && e.sequence == |scan.events| + 1
                            && e.eventId !in EventIds(scan.events) && e.dedupKey !in Keys(scan.events)
                            && after.events == scan.events + [e]
  {
    hide Accept;
  }

  const NOTHING_READ := Scan([], 1, 0, false)

  lemma {:induction false} IntactRead(lines: seq<seq<Byte>>, records: seq<Event>, thread: string, codec: Codec)
    requires Intact(FullLines(lines), records, thread, codec)
    ensures var scan := ScanLines(NOTHING_READ, lines, thread, codec);
      !scan.damaged && scan.events == records
    decreases |lines|
  {
    if lines != [] {
      hide Accept, Step, Intact, Scan.Sound;
      var n := |lines| - 1;
      var front, line := lines[..n], lines[n];
      ScanLinesSound(NOTHING_READ, front, thread, codec);
      if forall b | b in line :: b == 32 || 9 <= b <= 13 {
        StepBlank(ScanLines(NOTHING_READ, front, thread, codec), line, thread, codec);
        IntactRead(front, records, thread, codec);
      } else {
        IntactFront(FullLines(front), records, line, thread, codec);
        var earlier, e := records[..|records| - 1], records[|records| - 1];
        IntactSnoc(FullLines(front), earlier, line, e, thread, codec);
        IntactRead(front, earlier, thread, codec);
        IntactLengths(FullLines(front), earlier, thread, codec);
        StepFull(ScanLines(NOTHING_READ, front, thread, codec), line, thread, codec);
      }
    }
  }

  lemma UndamagedLine(front: seq<seq<Byte>>, before: Scan, line: seq<Byte>, thread: string, codec: Codec)
    requires before.Sound(thread) && !Step(before, line, thread, codec).damaged
    requires !forall b | b in line :: b == 32 || 9 <= b <= 13
    requires !before.damaged ==> Intact(FullLines(front), before.events, thread, codec)
    ensures !before.damaged && Intact(FullLines(front) + [line], Step(before, line, thread, codec).events, thread, codec)
  {
    hide Accept, Step, Intact, Scan.Sound, FullLines;
    StepFull(before, line, thread, codec);
    IntactLengths(FullLines(front), before.events, thread, codec);
    IntactSnoc(FullLines(front), before.events, line, Accept(codec.parse(line), thread).value, thread, codec);
  }

  lemma {:induction false} UndamagedScan(lines: seq<seq<Byte>>, thread: string, codec: Codec)
    requires !ScanLines(NOTHING_READ, lines, thread, codec).damaged
    ensures Intact(FullLines(lines), ScanLines(NOTHING_READ, lines, thread, codec).events, thread, codec)
    decreases |lines|
  {
    hide Accept, Step, Intact, Scan.Sound, FullLines;
    NothingIntact(thread, codec);
    if lines != [] {
      var n := |lines| - 1;
      var front, line := lines[..n], lines[n];
      var before := ScanLines(NOTHING_READ, front, thread, codec);
      ScanLinesSound(NOTHING_READ, front, thread, codec);
      FullLinesSnoc(front, line);
      assert lines == front + [line];
      if forall b | b in line :: b == 32 || 9 <= b <= 13 {
        StepBlank(before, line, thread, codec);
        UndamagedScan(front, thread, codec);
      } else {
        if !before.damaged {
          UndamagedScan(front, thread, codec);
        }
        UndamagedLine(front, before, line, thread, codec);
      }
    }
  }

  lemma FullLinesSnoc(front: seq<seq<Byte>>, line: seq<Byte>)
    ensures FullLines(front + [line])
      == if forall b | b in line :: b == 32 || 9 <= b <= 13 then FullLines(front) else FullLines(front) + [line]
  {
    assert (front + [line])[..|front|] == front;
    assert FullLines(front) + [] == FullLines(front);
  }

  lemma NothingIntact(thread: string, codec: Codec)
    ensures Intact(FullLines([]), [], thread, codec) && NOTHING_READ.Sound(thread)
  {
  }

  lemma IntactLengths(lines: seq<seq<Byte>>, records: seq<Event>, thread: string, codec: Codec)
    requires Intact(lines, records, thread, codec)
    ensures |lines| == |records|
  {
  }

  /**
   * A file reads undamaged if and only if it is empty or ends with a newline, and its lines, but for blank ones, are those of
   * records of the thread numbered from 1 with no event id or key twice; then those records are what is read.
   */
  lemma UndamagedIff(content: seq<Byte>, thread: string, codec: Codec)
    ensures !ScanFile(content, thread, codec).damaged
      <==> (content == [] || content[|content| - 1] == 10)
           && exists records :: Intact(FullLines(SplitLines(content)), records, thread, codec)
    ensures forall records | !ScanFile(content, thread, codec).damaged && Intact(FullLines(SplitLines(content)), records, thread, codec) ::
      ScanFile(content, thread, codec).events == records
  {
    hide ScanLines, Intact, SplitLines, FullLines;
    var lines, scan := SplitLines(content), ScanFile(content, thread, codec);
    forall records | EndsLine(content) && Intact(FullLines(lines), records, thread, codec)
      ensures !scan.damaged && scan.events == records
    {
      IntactRead(lines, records, thread, codec);
    }
    if !EndsLine(content) {
      ScanKeepsDamage(NOTHING_READ, lines, thread, codec);
    } else if !scan.damaged {
      UndamagedScan(lines, thread, codec);
      assert content == [] || content[|content| - 1] == 10;
      assert Intact(FullLines(lines), scan.events, thread, codec);
      assert exists records :: Intact(FullLines(SplitLines(content)), records, thread, codec);
    }
  }

  /** What a read of any bytes says of them. */
  lemma ReadSays(content: seq<Byte>, thread: string, codec: Codec)
    ensures var r := ReadSpec(Some(content), thread, codec);
      && Labelled(r.coverage, r.events, r.damaged)
      && (!r.damaged
          <==> (content == [] || content[|content| - 1] == 10) && Intact(FullLines(SplitLines(content)), r.events, thread, codec))
      && forall records | !r.damaged && Intact(FullLines(SplitLines(content)), records, thread, codec) :: records == r.events
  {
    hide ScanFile, CoverageOf, Labelled, Intact, SplitLines, FullLines;
    var scan := ScanFile(content, thread, codec);
    CoverageSays(scan.events, scan.damaged);
    UndamagedIff(content, thread, codec);
  }

  lemma AcceptsOwnLine(e: Event, codec: Codec)
    requires codec.Valid() && WellFormed(e)
    ensures Accept(codec.parse(codec.encode(e)), e.threadId) == Some(e)
  {
  }

  lemma ScanOneMore(start: Scan, content: seq<Byte>, tail: seq<Byte>, e: Event, codec: Codec)
    requires codec.Valid() && EndsLine(content) && WellFormed(e) && SplitLines(tail) == [codec.encode(e)]
    ensures ScanLines(start, SplitLines(content + tail), e.threadId, codec)
         == ScanLines(start, SplitLines(content), e.threadId, codec).Take(Some(e))
  {
    var lines := SplitLines(content);
    SplitConcat(content, tail);
    ScanLinesConcat(start, lines, [codec.encode(e)], e.threadId, codec);
    var before := ScanLines(start, lines, e.threadId, codec);
    assert [codec.encode(e)][..0] == [];
    assert ScanLines(before, [], e.threadId, codec) == before;
    AcceptsOwnLine(e, codec);
    assert codec.parse(codec.encode(e)) == Object(ToEnvelope(e));
  }

  lemma {:induction false} ScanKeepsDamage(start: Scan, lines: seq<seq<Byte>>, thread: string, codec: Codec)
    ensures ScanLines(start.(damaged := true), lines, thread, codec)
         == ScanLines(start, lines, thread, codec).(damaged := true)
    decreases |lines|
  {
    if lines != [] {
      ScanKeepsDamage(start, lines[..|lines| - 1], thread, codec);
    }
  }

  /** Adding one fresh record's line to any file that ends in a line break adds exactly that record to the read. */
  lemma ReadAppended(content: seq<Byte>, e: Event, codec: Codec)
    requires codec.Valid() && EndsLine(content) && WellFormed(e)
    requires var scan := ScanFile(content, e.threadId, codec);
      && e.sequence == scan.highWater + 1
      && e.eventId !in EventIds(scan.events) && e.dedupKey !in Keys(scan.events)
    ensures EndsLine(content + codec.Line(e))
    ensures var scan := ScanFile(content, e.threadId, codec);
      ScanFile(content + codec.Line(e), e.threadId, codec)
        == Scan(scan.events + [e], scan.expected + 1, scan.highWater + 1, scan.damaged)
  {
    ReadSound(content, e.threadId, codec);
    SplitSingle(codec.encode(e));
    ScanOneMore(Scan([], 1, 0, false), content, codec.Line(e), e, codec);
    ScanOneMore(Scan([], 1, 0, true), content, codec.Line(e), e, codec);
  }

  /** A full record whose newline is missing is read, but the file reads as damaged. */
  lemma ReadWithoutNewline(content: seq<Byte>, e: Event, codec: Codec)
    requires codec.Valid() && EndsLine(content) && WellFormed(e)
    requires var scan := ScanFile(content, e.threadId, codec);
      && e.sequence == scan.highWater + 1 && !scan.damaged
      && e.eventId !in EventIds(scan.events) && e.dedupKey !in Keys(scan.events)
    ensures var scan := ScanFile(content, e.threadId, codec);
      var torn := ScanFile(content + codec.encode(e), e.threadId, codec);
      torn.damaged && torn.events == scan.events + [e]
  {
    ReadSound(content, e.threadId, codec);
    var start, body := Scan([], 1, 0, false), codec.encode(e);
    assert body != [] && (content + body)[|content + body| - 1] == body[|body| - 1];
    SplitSingle(body);
    ScanOneMore(start.(damaged := true), content, body, e, codec);
    ScanKeepsDamage(start, SplitLines(content), e.threadId, codec);
  }
}
