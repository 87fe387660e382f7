/** What the numbers of a unified diff (POSIX.1-2008, "Diff -u or -U Output Format") say about the two files. */
module DiffNumbers {
  import opened Records
  import opened Decimal
  import opened DiffLines
  import opened DiffTheorems

  // ----- patches made from an edit script -----

  /** One line of a hunk. A kept empty line may be written bare, without its leading space; a note may follow any line. */
  datatype Edit =
    | Keep(line: string, bare: bool, note: bool)
    | Delete(line: string, note: bool)
    | Insert(line: string, note: bool)
  {
    predicate Valid() {
      NoNewline(line) && (Keep? && bare ==> line == "")
    }

    predicate Bare() {
      Keep? && bare
    }
  }

  const NOTE := "\\ No newline at end of file"

  /** Where a hunk starts in the two files, counted from zero, and what it does there. */
  datatype Hunk = Hunk(oldFrom: nat, newFrom: nat, edits: seq<Edit>, section: string)

  /** One file of a patch: the lines before the first hunk, and the hunks. */
  datatype FileDiff = FileDiff(header: seq<string>, hunks: seq<Hunk>)

  function OldLines(edits: seq<Edit>): seq<string> {
    if edits == [] then []
    else
      var last := edits[|edits| - 1];
      OldLines(edits[..|edits| - 1]) + if last.Insert? then [] else [last.line]
  }

  function NewLines(edits: seq<Edit>): seq<string> {
    if edits == [] then []
    else
      var last := edits[|edits| - 1];
      NewLines(edits[..|edits| - 1]) + if last.Delete? then [] else [last.line]
  }

  /** The start and count of one side; an empty side starts at the line before it, and a count of one is left out. */
  function RangeText(from: nat, count: nat): string {
    if count == 0 then Numeral(from) + ",0"
    else if count == 1 then Numeral(from + 1)
    else Numeral(from + 1) + "," + Numeral(count)
  }

  function HunkHeader(h: Hunk): string {
    "@@ -" + RangeText(h.oldFrom, |OldLines(h.edits)|) + " +" + RangeText(h.newFrom, |NewLines(h.edits)|) + " @@" + h.section
  }

  // ----- the lines of a patch, with the numbers they should have -----

  /** An edit at line `i` of the old file and line `j` of the new one, counted from zero. */
  function EditLine(e: Edit, i: nat, j: nat): Line {
    match e
    case Keep(line, bare, _) => Line(if bare then line else " " + line, Context, Some(i + 1), Some(j + 1))
    case Delete(line, _) => Line("-" + line, Deletion, Some(i + 1), None)
    case Insert(line, _) => Line("+" + line, Addition, None, Some(j + 1))
  }

  function EditLines(e: Edit, i: nat, j: nat): seq<Line> {
    [EditLine(e, i, j)] + if e.note then [Line(NOTE, Meta, None, None)] else []
  }

  function Body(edits: seq<Edit>, i: nat, j: nat): seq<Line> {
    if edits == [] then []
    else
      var front := edits[..|edits| - 1];
      Body(front, i, j) + EditLines(edits[|edits| - 1], i + |OldLines(front)|, j + |NewLines(front)|)
  }

  function HunkLines(h: Hunk): seq<Line> {
    [Line(HunkHeader(h), HunkLine, None, None)] + Body(h.edits, h.oldFrom, h.newFrom)
  }

  function AllHunkLines(hunks: seq<Hunk>): seq<Line> {
    if hunks == [] then [] else AllHunkLines(hunks[..|hunks| - 1]) + HunkLines(hunks[|hunks| - 1])
  }

  function HeaderLines(header: seq<string>): (lines: seq<Line>)
    ensures |lines| == |header|
  {
    seq(|header|, i requires 0 <= i < |header| => Line(header[i], Meta, None, None))
  }

  function FileLines(f: FileDiff): seq<Line> {
    HeaderLines(f.header) + AllHunkLines(f.hunks)
  }

  function PatchLines(files: seq<FileDiff>): seq<Line> {
    if files == [] then [] else PatchLines(files[..|files| - 1]) + FileLines(files[|files| - 1])
  }

  /** Git's file headers: the first line says "diff --", and no line looks like a hunk. */
  ghost predicate WellHeaded(f: FileDiff) {
    && f.header != [] && "diff --" <= f.header[0]
    && forall line | line in f.header :: !("@@" <= line)
  }

  ghost predicate Plain(f: FileDiff) {
    forall h, e | h in f.hunks && e in h.edits :: !e.Bare()
  }

  // ----- headers read back -----

  lemma {:induction false} DigitRunOf(digits: string, rest: string)
    requires forall c | c in digits :: IsDigit(c)
    requires rest == [] || !IsDigit(rest[0])
    ensures DigitRun(digits + rest) == |digits|
  {
    if digits == [] {
      assert digits + rest == rest;
    } else {
      assert digits[0] in digits;
      assert (digits + rest)[1..] == digits[1..] + rest;
      DigitRunOf(digits[1..], rest);
    }
  }

  lemma ParsePlainRange(n: nat, rest: string)
    requires rest != [] && !IsDigit(rest[0]) && rest[0] != ','
    ensures ParseRange(Numeral(n) + rest) == Range(n, rest)
  {
    DigitRunOf(Numeral(n), rest);
    NumeralRoundTrip(n);
    assert (Numeral(n) + rest)[..|Numeral(n)|] == Numeral(n) && (Numeral(n) + rest)[|Numeral(n)|..] == rest;
  }

  lemma ParseCountedRange(n: nat, count: nat, rest: string)
    requires rest != [] && !IsDigit(rest[0])
    ensures ParseRange(Numeral(n) + "," + Numeral(count) + rest) == Range(n, rest)
  {
    hide DigitRun, Numeral, NumeralValue, ParseRange;
    var first, second := Numeral(n), Numeral(count);
    var counted := "," + (second + rest);
    assert first + "," + second + rest == first + counted;
    DigitRunOf(first, counted);
    DigitRunOf(second, rest);
    NumeralRoundTrip(n);
    assert counted[1..] == second + rest;
    assert counted[1 + |second|..] == rest;
    CountedRange(first, counted, second, rest);
  }

  lemma CountedRange(first: string, counted: string, second: string, rest: string)
    requires first != [] && forall c | c in first :: IsDigit(c)
    requires second != [] && counted != [] && counted[0] == ',' && counted[1..] == second + rest && counted[1 + |second|..] == rest
    requires DigitRun(first + counted) == |first| && DigitRun(second + rest) == |second|
    ensures ParseRange(first + counted) == Range(NumeralValue(first), rest)
  {
  }

  function StartOf(from: nat, count: nat): nat {
    if count == 0 then from else from + 1
  }

  lemma ParseRangeText(from: nat, count: nat, rest: string)
    requires rest != [] && !IsDigit(rest[0]) && rest[0] != ','
    ensures var range := ParseRange(RangeText(from, count) + rest);
      range.Range? && range.start == StartOf(from, count) && range.rest == rest
  {
    hide ParseRange, Numeral;
    if count == 0 {
      ZeroNumeral();
      assert RangeText(from, count) + rest == Numeral(from) + "," + Numeral(0) + rest;
      ParseCountedRange(from, 0, rest);
    } else if count == 1 {
      ParsePlainRange(from + 1, rest);
    } else {
      ParseCountedRange(from + 1, count, rest);
    }
  }

  lemma ZeroNumeral()
    ensures Numeral(0) == "0"
  {
  }

  /** The numbers printed in a hunk header are read back. */
  lemma HeaderRoundTrip(h: Hunk)
    ensures ParseHunk(HunkHeader(h))
      == Some((StartOf(h.oldFrom, |OldLines(h.edits)|), StartOf(h.newFrom, |NewLines(h.edits)|)))
    ensures !("diff --" <= HunkHeader(h))
  {
    hide RangeText, ParseRange, OldLines, NewLines;
    var oldText, newText := RangeText(h.oldFrom, |OldLines(h.edits)|), RangeText(h.newFrom, |NewLines(h.edits)|);
    var end := " @@" + h.section;
    var second := " +" + (newText + end);
    var text := HunkHeader(h);
    assert text == "@@ -" + (oldText + second);
    assert text[4..] == oldText + second && text[..4] == "@@ -";
    ParseRangeText(h.oldFrom, |OldLines(h.edits)|, second);
    assert second[2..] == newText + end && second[..2] == " +";
    ParseRangeText(h.newFrom, |NewLines(h.edits)|, end);
    assert end[..3] == " @@";
    assert text[0] == '@';
  }

  // ----- every line gets its number -----

  lemma TextsConcat(left: seq<Line>, right: seq<Line>)
    ensures Texts(left + right) == Texts(left) + Texts(right)
  {
  }

  lemma NumbersConcat(c: Counters, left: seq<Line>, right: seq<Line>)
    requires LinesOf(c, Texts(left)) == left && LinesOf(After(c, Texts(left)), Texts(right)) == right
    ensures LinesOf(c, Texts(left + right)) == left + right
    ensures After(c, Texts(left + right)) == After(After(c, Texts(left)), Texts(right))
  {
    TextsConcat(left, right);
    LinesConcat(c, Texts(left), Texts(right));
  }

  lemma NoNumbers(c: Counters)
    ensures LinesOf(c, Texts([])) == [] && After(c, Texts([])) == c
  {
  }

  lemma OneNumber(c: Counters, line: Line)
    requires Number(c, line.text).0 == line
    ensures LinesOf(c, Texts([line])) == [line] && After(c, Texts([line])) == Number(c, line.text).1
  {
  }

  predicate Old(e: Edit) {
    !e.Insert?
  }

  predicate New(e: Edit) {
    !e.Delete?
  }

  lemma EditNumber(e: Edit, i: nat, j: nat, b: nat, a: nat)
    requires e.Valid() && !e.Bare() && (Old(e) ==> b == i + 1) && (New(e) ==> a == j + 1)
    ensures Number(Inside(b, a), EditLine(e, i, j).text)
      == (EditLine(e, i, j), Inside(if Old(e) then b + 1 else b, if New(e) then a + 1 else a))
    ensures Number(Inside(b, a), NOTE) == (Line(NOTE, Meta, None, None), Inside(b, a))
  {
    hide ParseRange;
    var text := EditLine(e, i, j).text;
    assert text[0] != '@' && text[0] != 'd';
    assert NOTE[0] == '\\';
    assert ParseHunk(text).None? && ParseHunk(NOTE).None?;
  }

  lemma EditNumbers(e: Edit, i: nat, j: nat, b: nat, a: nat)
    requires e.Valid() && !e.Bare() && (Old(e) ==> b == i + 1) && (New(e) ==> a == j + 1)
    ensures LinesOf(Inside(b, a), Texts(EditLines(e, i, j))) == EditLines(e, i, j)
    ensures After(Inside(b, a), Texts(EditLines(e, i, j)))
      == Inside(if Old(e) then b + 1 else b, if New(e) then a + 1 else a)
  {
    hide Number, EditLine;
    EditNumber(e, i, j, b, a);
    var line, note := EditLine(e, i, j), Line(NOTE, Meta, None, None);
    OneNumber(Inside(b, a), line);
    if e.note {
      var next := Inside(if Old(e) then b + 1 else b, if New(e) then a + 1 else a);
      NoteNumber(next);
      OneNumber(next, note);
      NumbersConcat(Inside(b, a), [line], [note]);
    } else {
      assert EditLines(e, i, j) == [line];
    }
  }

  lemma NoteNumber(c: Counters)
    ensures Number(c, NOTE) == (Line(NOTE, Meta, None, None), c)
  {
    hide ParseRange;
    assert NOTE[0] == '\\';
    assert ParseHunk(NOTE).None?;
  }

  lemma BodySnoc(edits: seq<Edit>, i: nat, j: nat)
    requires edits != []
    ensures var front, last := edits[..|edits| - 1], edits[|edits| - 1];
      && Body(edits, i, j) == Body(front, i, j) + EditLines(last, i + |OldLines(front)|, j + |NewLines(front)|)
      && |OldLines(edits)| == |OldLines(front)| + (if Old(last) then 1 else 0)
      && |NewLines(edits)| == |NewLines(front)| + (if New(last) then 1 else 0)
  {
    hide EditLines;
  }

  lemma NoBody(i: nat, j: nat)
    ensures Body([], i, j) == [] && OldLines([]) == [] && NewLines([]) == []
  {
  }

  /** Inside a hunk without bare lines, every line gets the number it should have. */
  lemma {:induction false} BodyNumbers(edits: seq<Edit>, i: nat, j: nat, b: nat, a: nat)
    requires forall e | e in edits :: e.Valid() && !e.Bare()
    requires (OldLines(edits) != [] ==> b == i + 1) && (NewLines(edits) != [] ==> a == j + 1)
    ensures LinesOf(Inside(b, a), Texts(Body(edits, i, j))) == Body(edits, i, j)
    ensures After(Inside(b, a), Texts(Body(edits, i, j))) == Inside(b + |OldLines(edits)|, a + |NewLines(edits)|)
    decreases |edits|
  {
    hide Number, EditLines, LinesOf, After, Edit.Valid, Texts, Body, OldLines, NewLines;
    if edits == [] {
      NoBody(i, j);
      NoNumbers(Inside(b, a));
    } else {
      var front, last := edits[..|edits| - 1], edits[|edits| - 1];
      assert last in edits && forall e | e in front :: e in edits;
      BodySnoc(edits, i, j);
      BodyNumbers(front, i, j, b, a);
      BodyStep(Body(front, i, j), last, i + |OldLines(front)|, j + |NewLines(front)|, b + |OldLines(front)|, a + |NewLines(front)|,
               Inside(b, a));
    }
  }

  lemma BodyStep(front: seq<Line>, last: Edit, i: nat, j: nat, b: nat, a: nat, start: Counters)
    requires LinesOf(start, Texts(front)) == front && After(start, Texts(front)) == Inside(b, a)
    requires last.Valid() && !last.Bare() && (Old(last) ==> b == i + 1) && (New(last) ==> a == j + 1)
    ensures var lines := front + EditLines(last, i, j);
      && LinesOf(start, Texts(lines)) == lines
      && After(start, Texts(lines)) == Inside(if Old(last) then b + 1 else b, if New(last) then a + 1 else a)
  {
    hide Number, EditLines, LinesOf, After;
    EditNumbers(last, i, j, b, a);
    NumbersConcat(start, front, EditLines(last, i, j));
  }

  lemma HunkNumbers(c: Counters, h: Hunk)
    requires forall e | e in h.edits :: e.Valid() && !e.Bare()
    ensures LinesOf(c, Texts(HunkLines(h))) == HunkLines(h)
  {
    HeaderRoundTrip(h);
    var header := Line(HunkHeader(h), HunkLine, None, None);
    var b, a := StartOf(h.oldFrom, |OldLines(h.edits)|), StartOf(h.newFrom, |NewLines(h.edits)|);
    assert Number(c, header.text) == (header, Inside(b, a));
    hide Number, HunkHeader, Body;
    OneNumber(c, header);
    BodyNumbers(h.edits, h.oldFrom, h.newFrom, b, a);
    NumbersConcat(c, [header], Body(h.edits, h.oldFrom, h.newFrom));
  }

  lemma {:induction false} AllHunkNumbers(c: Counters, hunks: seq<Hunk>)
    requires forall h, e | h in hunks && e in h.edits :: e.Valid() && !e.Bare()
    ensures LinesOf(c, Texts(AllHunkLines(hunks))) == AllHunkLines(hunks)
  {
    hide Number, HunkLines;
    if hunks == [] {
      assert Texts([]) == [];
    } else {
      var front, last := hunks[..|hunks| - 1], hunks[|hunks| - 1];
      assert last in hunks && forall h | h in front :: h in hunks;
      AllHunkNumbers(c, front);
      HunkNumbers(After(c, Texts(AllHunkLines(front))), last);
      NumbersConcat(c, AllHunkLines(front), HunkLines(last));
    }
  }

  lemma {:induction false} HeaderNumbers(c: Counters, header: seq<string>)
    requires header != [] && "diff --" <= header[0] && forall line | line in header :: !("@@" <= line)
    ensures LinesOf(c, Texts(HeaderLines(header))) == HeaderLines(header)
    ensures After(c, Texts(HeaderLines(header))) == Outside
    decreases |header|
  {
    hide Number, LinesOf, After, Texts, HeaderLines;
    var n := |header| - 1;
    assert header[n] in header;
    HeaderNumber(header[n]);
    HeaderSnoc(header);
    if n == 0 {
      FirstHeaderNumber(c, header[0]);
      OneNumber(c, Line(header[0], Meta, None, None));
    } else {
      HeaderNumbers(c, header[..n]);
      OneNumber(Outside, Line(header[n], Meta, None, None));
      NumbersConcat(c, HeaderLines(header[..n]), [Line(header[n], Meta, None, None)]);
    }
  }

  lemma HeaderSnoc(header: seq<string>)
    requires header != []
    ensures var n := |header| - 1;
      && HeaderLines(header) == HeaderLines(header[..n]) + [Line(header[n], Meta, None, None)]
      && (n == 0 ==> HeaderLines(header) == [Line(header[0], Meta, None, None)])
      && (n > 0 ==> header[..n] != [] && header[..n][0] == header[0])
      && forall l | l in header[..n] :: l in header
  {
  }

  lemma FirstHeaderNumber(c: Counters, text: string)
    requires "diff --" <= text
    ensures Number(c, text) == (Line(text, Meta, None, None), Outside)
  {
  }

  lemma HeaderNumber(text: string)
    requires !("@@" <= text)
    ensures Number(Outside, text) == (Line(text, Meta, None, None), Outside)
  {
  }

  lemma FileNumbers(c: Counters, f: FileDiff)
    requires WellHeaded(f) && Plain(f) && forall h, e | h in f.hunks && e in h.edits :: e.Valid()
    ensures LinesOf(c, Texts(FileLines(f))) == FileLines(f)
  {
    HeaderNumbers(c, f.header);
    AllHunkNumbers(Outside, f.hunks);
    hide LinesOf, After, HeaderLines, AllHunkLines;
    NumbersConcat(c, HeaderLines(f.header), AllHunkLines(f.hunks));
  }

  ghost predicate WellMade(files: seq<FileDiff>) {
    forall f | f in files :: WellHeaded(f) && forall h, e | h in f.hunks && e in h.edits :: e.Valid()
  }

  lemma {:induction false} PatchNumbers(c: Counters, files: seq<FileDiff>)
    requires WellMade(files) && forall f | f in files :: Plain(f)
    ensures LinesOf(c, Texts(PatchLines(files))) == PatchLines(files)
  {
    hide Number, FileLines, WellHeaded, Plain;
    if files == [] {
      assert Texts([]) == [];
    } else {
      var front, last := files[..|files| - 1], files[|files| - 1];
      assert last in files && forall f | f in front :: f in files;
      PatchNumbers(c, front);
      FileNumbers(After(c, Texts(PatchLines(front))), last);
      NumbersConcat(c, PatchLines(front), FileLines(last));
    }
  }

  // ----- bare lines -----

  /** A context line written as an empty one. */
  ghost predicate HasBare(lines: seq<Line>) {
    exists line :: line in lines && line.text == "" && line.kind == Context
  }

  lemma {:induction false} EmptyIsMeta(c: Counters, texts: seq<string>)
    ensures forall i | 0 <= i < |texts| && texts[i] == "" :: LinesOf(c, texts)[i].kind == Meta
  {
    if texts != [] {
      EmptyIsMeta(c, texts[..|texts| - 1]);
    }
  }

  lemma {:induction false} BareInBody(edits: seq<Edit>, i: nat, j: nat, e: Edit)
    requires e in edits && e.Valid() && e.Bare()
    ensures HasBare(Body(edits, i, j))
    decreases |edits|
  {
    var front, last := edits[..|edits| - 1], edits[|edits| - 1];
    var rest := EditLines(last, i + |OldLines(front)|, j + |NewLines(front)|);
    if e in front {
      BareInBody(front, i, j, e);
      var line :| line in Body(front, i, j) && line.text == "" && line.kind == Context;
      assert line in Body(edits, i, j);
    } else {
      assert rest[0] in rest && rest[0] in Body(edits, i, j);
    }
  }

  lemma {:induction false} BareInHunks(hunks: seq<Hunk>, h: Hunk, e: Edit)
    requires h in hunks && e in h.edits && e.Valid() && e.Bare()
    ensures HasBare(AllHunkLines(hunks))
  {
    var front, last := hunks[..|hunks| - 1], hunks[|hunks| - 1];
    if h in front {
      BareInHunks(front, h, e);
      var line :| line in AllHunkLines(front) && line.text == "" && line.kind == Context;
      assert line in AllHunkLines(hunks);
    } else {
      BareInBody(h.edits, h.oldFrom, h.newFrom, e);
      var line :| line in Body(h.edits, h.oldFrom, h.newFrom) && line.text == "" && line.kind == Context;
      assert line in AllHunkLines(hunks);
    }
  }

  lemma {:induction false} BareInPatch(files: seq<FileDiff>, f: FileDiff, h: Hunk, e: Edit)
    requires f in files && h in f.hunks && e in h.edits && e.Valid() && e.Bare()
    ensures HasBare(PatchLines(files))
  {
    var front, last := files[..|files| - 1], files[|files| - 1];
    if f in front {
      BareInPatch(front, f, h, e);
      var line :| line in PatchLines(front) && line.text == "" && line.kind == Context;
      assert line in PatchLines(files);
    } else {
      BareInHunks(f.hunks, h, e);
      var line :| line in AllHunkLines(f.hunks) && line.text == "" && line.kind == Context;
      assert line in FileLines(last);
      assert line in PatchLines(files);
    }
  }

  /** Every line of a patch is numbered as it should be, if and only if no empty context line is written bare. */
  lemma NumberedRightIff(files: seq<FileDiff>)
    requires WellMade(files)
    ensures LinesOf(Outside, Texts(PatchLines(files))) == PatchLines(files) <==> forall f | f in files :: Plain(f)
  {
    if forall f | f in files :: Plain(f) {
      PatchNumbers(Outside, files);
    } else {
      var f :| f in files && !Plain(f);
      var h, e :| h in f.hunks && e in h.edits && e.Bare();
      BareInPatch(files, f, h, e);
      var line :| line in PatchLines(files) && line.text == "" && line.kind == Context;
      var i :| 0 <= i < |PatchLines(files)| && PatchLines(files)[i] == line;
      EmptyIsMeta(Outside, Texts(PatchLines(files)));
    }
  }

  /** So for the patch as Git prints it, every line ended by a newline. */
  lemma PatchNumberedIff(files: seq<FileDiff>)
    requires WellMade(files) && files != []
    requires forall line | line in PatchLines(files) :: NoNewline(line.text)
    ensures var source := Join(Texts(PatchLines(files)), LINE_END) + [LINE_END];
      LinesOf(Outside, SourceLines(source)) == PatchLines(files) <==> forall f | f in files :: Plain(f)
  {
    var texts := Texts(PatchLines(files));
    NonemptyPatch(files);
    NumberedRightIff(files);
    hide LinesOf, Split, Join, PatchLines, Lacks;
    JoinSplit(texts, LINE_END);
    var joined := Join(texts, LINE_END);
    assert (joined + [LINE_END])[..|joined|] == joined;
  }

  lemma NonemptyPatch(files: seq<FileDiff>)
    requires WellMade(files) && files != []
    ensures PatchLines(files) != []
  {
  }

  // ----- what a number means -----

  /** Some lines are a file's lines from a place on. */
  ghost predicate StandsAt(lines: seq<string>, file: seq<string>, from: nat) {
    from + |lines| <= |file| && lines == file[from..from + |lines|]
  }

  /** The hunk's lines are the files' lines at its two places. */
  ghost predicate Describes(h: Hunk, before: seq<string>, after: seq<string>) {
    StandsAt(OldLines(h.edits), before, h.oldFrom) && StandsAt(NewLines(h.edits), after, h.newFrom)
  }

  /** The numbered lines of the old file, then of the new one: what stands after the marker is the line with that number. */
  ghost predicate Carries(line: Line, before: seq<string>, after: seq<string>) {
    && (line.before.Some? ==> 1 <= line.before.value <= |before| && Content(line) == before[line.before.value - 1])
    && (line.after.Some? ==> 1 <= line.after.value <= |after| && Content(line) == after[line.after.value - 1])
    && (line.kind == Context <==> line.before.Some? && line.after.Some?)
    && (line.kind == Deletion <==> line.before.Some? && line.after.None?)
    && (line.kind == Addition <==> line.before.None? && line.after.Some?)
  }

  function Content(line: Line): string {
    if line.text == "" then "" else line.text[1..]
  }

  lemma StandsSnoc(lines: seq<string>, last: string, file: seq<string>, from: nat)
    requires StandsAt(lines + [last], file, from)
    ensures StandsAt(lines, file, from) && from + |lines| < |file| && file[from + |lines|] == last
  {
    var all := lines + [last];
    assert all[|lines|] == last && all[..|lines|] == lines;
    assert file[from..from + |all|][|lines|] == last;
    assert file[from..from + |all|][..|lines|] == file[from..from + |lines|];
  }

  lemma EditsSnoc(edits: seq<Edit>)
    requires edits != []
    ensures var front, last := edits[..|edits| - 1], edits[|edits| - 1];
      && OldLines(edits) == OldLines(front) + (if Old(last) then [last.line] else [])
      && NewLines(edits) == NewLines(front) + (if New(last) then [last.line] else [])
      && last in edits && forall e | e in front :: e in edits
  {
  }

  lemma {:induction false} BodyCarries(edits: seq<Edit>, i: nat, j: nat, before: seq<string>, after: seq<string>)
    requires forall e | e in edits :: e.Valid()
    requires StandsAt(OldLines(edits), before, i) && StandsAt(NewLines(edits), after, j)
    ensures forall line | line in Body(edits, i, j) :: Carries(line, before, after)
    decreases |edits|
  {
    hide Carries, StandsAt, OldLines, NewLines, EditLines, Edit.Valid;
    if edits != [] {
      var front, last := edits[..|edits| - 1], edits[|edits| - 1];
      EditsSnoc(edits);
      assert OldLines(front) + [] == OldLines(front) && NewLines(front) + [] == NewLines(front);
      if Old(last) {
        StandsSnoc(OldLines(front), last.line, before, i);
      }
      if New(last) {
        StandsSnoc(NewLines(front), last.line, after, j);
      }
      BodyCarries(front, i, j, before, after);
      EditCarries(last, i + |OldLines(front)|, j + |NewLines(front)|, before, after);
    }
  }

  lemma EditCarries(e: Edit, i: nat, j: nat, before: seq<string>, after: seq<string>)
    requires e.Valid()
    requires Old(e) ==> i < |before| && before[i] == e.line
    requires New(e) ==> j < |after| && after[j] == e.line
    ensures forall line | line in EditLines(e, i, j) :: Carries(line, before, after)
  {
  }

  /** The numbers of a file's hunks name the lines of its two versions. */
  lemma {:induction false} NumbersCarryLines(hunks: seq<Hunk>, before: seq<string>, after: seq<string>)
    requires forall h | h in hunks :: Describes(h, before, after) && forall e | e in h.edits :: e.Valid()
    ensures forall line | line in AllHunkLines(hunks) :: Carries(line, before, after)
  {
    if hunks != [] {
      var front, last := hunks[..|hunks| - 1], hunks[|hunks| - 1];
      assert last in hunks && forall h | h in front :: h in hunks;
      NumbersCarryLines(front, before, after);
      BodyCarries(last.edits, last.oldFrom, last.newFrom, before, after);
    }
  }

  /** Where a file's lines begin in a patch. */
  function LinesBefore(files: seq<FileDiff>, i: nat): nat
    requires i <= |files|
  {
    |PatchLines(files[..i])|
  }

  /** The two versions of each file of a patch. */
  datatype Versions = Versions(before: seq<string>, after: seq<string>)

  ghost predicate DescribesAll(files: seq<FileDiff>, versions: seq<Versions>) {
    && |versions| == |files|
    && forall i, h | 0 <= i < |files| && h in files[i].hunks :: Describes(h, versions[i].before, versions[i].after)
  }

  /** The lines of one file in a patch, against its versions. */
  ghost predicate CarriesFile(lines: seq<Line>, files: seq<FileDiff>, i: nat, v: Versions)
    requires i < |files|
  {
    && LinesBefore(files, i) <= LinesBefore(files, i + 1) <= |lines|
    && forall line | line in lines[LinesBefore(files, i)..LinesBefore(files, i + 1)] :: Carries(line, v.before, v.after)
  }

  /** Each line of a patch, against the versions of the file it stands in. */
  ghost predicate CarriesAll(lines: seq<Line>, files: seq<FileDiff>, versions: seq<Versions>) {
    && |versions| == |files| && |lines| == LinesBefore(files, |files|)
    && forall i | 0 <= i < |files| :: CarriesFile(lines, files, i, versions[i])
  }

  lemma HeaderCarries(header: seq<string>, v: Versions)
    ensures forall line | line in HeaderLines(header) :: Carries(line, v.before, v.after)
  {
  }

  lemma FileCarries(f: FileDiff, v: Versions)
    requires forall h | h in f.hunks :: Describes(h, v.before, v.after) && forall e | e in h.edits :: e.Valid()
    ensures forall line | line in FileLines(f) :: Carries(line, v.before, v.after)
  {
    hide Carries, Describes, HeaderLines, AllHunkLines, Edit.Valid;
    HeaderCarries(f.header, v);
    NumbersCarryLines(f.hunks, v.before, v.after);
  }

  lemma PatchSnoc(front: seq<FileDiff>, last: FileDiff)
    ensures PatchLines(front + [last]) == PatchLines(front) + FileLines(last)
    ensures forall i | 0 <= i <= |front| :: LinesBefore(front + [last], i) == LinesBefore(front, i)
    ensures LinesBefore(front, |front|) == |PatchLines(front)|
    ensures LinesBefore(front + [last], |front| + 1) == |PatchLines(front)| + |FileLines(last)|
  {
    var files := front + [last];
    assert files[..|front|] == front && files[..|files|] == files && front[..|front|] == front;
    forall i | 0 <= i <= |front| ensures files[..i] == front[..i] {
    }
  }

  lemma EarlierFile(lines: seq<Line>, more: seq<Line>, front: seq<FileDiff>, last: FileDiff, i: nat, v: Versions)
    requires i < |front| && CarriesFile(lines, front, i, v)
    requires forall j | 0 <= j <= |front| :: LinesBefore(front + [last], j) == LinesBefore(front, j)
    ensures CarriesFile(lines + more, front + [last], i, v)
  {
    hide LinesBefore, Carries;
    var from, to := LinesBefore(front, i), LinesBefore(front, i + 1);
    assert (lines + more)[from..to] == lines[from..to];
  }

  lemma {:induction false} PatchCarries(files: seq<FileDiff>, versions: seq<Versions>)
    requires WellMade(files) && DescribesAll(files, versions)
    ensures CarriesAll(PatchLines(files), files, versions)
  {
    hide Carries, Describes, FileLines, PatchLines, LinesBefore, Edit.Valid, WellHeaded, CarriesFile;
    if files == [] {
      NoFiles();
    } else {
      var n := |files| - 1;
      var front, last := files[..n], files[n];
      assert files == front + [last] && last in files && forall f | f in front :: f in files;
      PatchSnoc(front, last);
      PatchCarries(front, versions[..n]);
      FileCarries(last, versions[n]);
      forall i | 0 <= i < n ensures CarriesFile(PatchLines(files), files, i, versions[i]) {
        EarlierFile(PatchLines(front), FileLines(last), front, last, i, versions[i]);
      }
      LastFile(PatchLines(front), front, last, versions[n]);
    }
  }

  lemma LastFile(lines: seq<Line>, front: seq<FileDiff>, last: FileDiff, v: Versions)
    requires forall line | line in FileLines(last) :: Carries(line, v.before, v.after)
    requires LinesBefore(front + [last], |front|) == |lines|
    requires LinesBefore(front + [last], |front| + 1) == |lines| + |FileLines(last)|
    ensures CarriesFile(lines + FileLines(last), front + [last], |front|, v)
  {
    hide LinesBefore, Carries, FileLines;
    var all := lines + FileLines(last);
    assert all[|lines|..|all|] == FileLines(last);
  }

  lemma NoFiles()
    ensures PatchLines([]) == [] && LinesBefore([], 0) == 0
  {
  }

  /**
   * So in a patch without bare context lines that describes some files, whatever is numbered n on a side is line n of that
   * version of the file it stands in.
   */
  lemma NumberedLinesAreTheFiles(files: seq<FileDiff>, versions: seq<Versions>)
    requires WellMade(files) && files != [] && DescribesAll(files, versions)
    requires forall line | line in PatchLines(files) :: NoNewline(line.text)
    requires forall f | f in files :: Plain(f)
    ensures var source := Join(Texts(PatchLines(files)), LINE_END) + [LINE_END];
      CarriesAll(LinesOf(Outside, SourceLines(source)), files, versions)
  {
    hide CarriesAll, LinesOf, SourceLines, PatchLines, NoNewline, WellMade, DescribesAll, Plain;
    PatchNumberedIff(files);
    PatchCarries(files, versions);
  }
}
