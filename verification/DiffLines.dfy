/** `_diff_lines`: numbering the two sides of a unified diff, line by line. */
module DiffLines {
  import opened Records
  import opened Decimal

  datatype LineKind = Meta | HunkLine | Addition | Deletion | Context

  datatype Line = Line(text: string, kind: LineKind, before: Option<nat>, after: Option<nat>)

  /** The next line numbers of the two sides; outside a hunk there are none. */
  datatype Counters = Outside | Inside(before: nat, after: nat)

  // ----- text and lines -----

  const LINE_END := '\n'

  predicate Lacks<T(==)>(s: seq<T>, newline: T) {
    newline !in s
  }

  predicate NoNewline(s: string) {
    Lacks(s, LINE_END)
  }

  /** Splitting at newlines, as `str.split` does: one more part than newlines. */
  function Split<T(==)>(s: seq<T>, newline: T): (parts: seq<seq<T>>)
    ensures parts != [] && forall p | p in parts :: Lacks(p, newline)
  {
    if s == [] then [[]]
    else
      var front, last := Split(s[..|s| - 1], newline), s[|s| - 1];
      if last == newline then front + [[]]
      else
        assert front[|front| - 1] in front;
        front[|front| - 1 := front[|front| - 1] + [last]]
  }

  function Join<T>(parts: seq<seq<T>>, newline: T): seq<T> {
    if parts == [] then []
    else if |parts| == 1 then parts[0]
    else Join(parts[..|parts| - 1], newline) + [newline] + parts[|parts| - 1]
  }

  function WithoutFinalNewline<T(==)>(s: seq<T>, newline: T): seq<T> {
    if s != [] && s[|s| - 1] == newline then s[..|s| - 1] else s
  }

  function LinesIn<T(==)>(s: seq<T>, newline: T): seq<seq<T>> {
    if s == [] then [] else Split(WithoutFinalNewline(s, newline), newline)
  }

  function SourceLines(source: string): seq<string> {
    LinesIn(source, LINE_END)
  }

  // ----- hunk headers -----

  function DigitRun(s: string): (n: nat)
    ensures n <= |s| && forall c | c in s[..n] :: IsDigit(c)
    ensures n < |s| ==> !IsDigit(s[n])
  {
    if s == [] || !IsDigit(s[0]) then 0
    else
      var n := 1 + DigitRun(s[1..]);
      assert s[..n] == [s[0]] + s[1..][..n - 1];
      n
  }

  datatype Range = NoRange | Range(start: nat, rest: string)

  /** A start number and an optional count, which is read over. */
  function ParseRange(s: string): Range {
    var n := DigitRun(s);
    if n == 0 then NoRange
    else
      var rest := s[n..];
      if rest != [] && rest[0] == ',' && DigitRun(rest[1..]) > 0
      then Range(NumeralValue(s[..n]), rest[1 + DigitRun(rest[1..])..])
      else Range(NumeralValue(s[..n]), rest)
  }

  function ParseHunk(text: string): Option<(nat, nat)> {
    if !("@@ -" <= text) then None
    else
      match ParseRange(text[4..])
      case NoRange => None
      case Range(before, rest) =>
        if !(" +" <= rest) then None
        else
          match ParseRange(rest[2..])
          case NoRange => None
          case Range(after, end) => if " @@" <= end then Some((before, after)) else None
  }

  // ----- one line -----

  predicate Starts(text: string, c: char) {
    text != [] && text[0] == c
  }

  function Number(c: Counters, text: string): (Line, Counters) {
    var plain := Line(text, Meta, None, None);
    if "diff --" <= text then (plain, Outside)
    else if ParseHunk(text).Some? then
      (plain.(kind := HunkLine), Inside(ParseHunk(text).value.0, ParseHunk(text).value.1))
    else if "@@" <= text then (plain.(kind := HunkLine), Outside)
    else if c.Outside? then (plain, c)
    else if Starts(text, '+') then
      (Line(text, Addition, None, Some(c.after)), c.(after := c.after + 1))
    else if Starts(text, '-') then
      (Line(text, Deletion, Some(c.before), None), c.(before := c.before + 1))
    else if Starts(text, ' ') then
      (Line(text, Context, Some(c.before), Some(c.after)), Inside(c.before + 1, c.after + 1))
    else (plain, c)
  }

  function After(c: Counters, texts: seq<string>): Counters {
    if texts == [] then c else Number(After(c, texts[..|texts| - 1]), texts[|texts| - 1]).1
  }

  function LinesOf(c: Counters, texts: seq<string>): (lines: seq<Line>)
    ensures |lines| == |texts|
  {
    if texts == [] then []
    else LinesOf(c, texts[..|texts| - 1]) + [Number(After(c, texts[..|texts| - 1]), texts[|texts| - 1]).0]
  }

  /** The source's loop, with its two counters set and cleared together. */
  method NumberLines(source: string) returns (result: seq<Line>)
    ensures result == LinesOf(Outside, SourceLines(source))
  {
    result := [];
    var before: Option<nat>, after: Option<nat> := None, None;
    var texts := SourceLines(source);
    for i := 0 to |texts|
      invariant before.Some? <==> after.Some?
      invariant After(Outside, texts[..i]) == if before.Some? then Inside(before.value, after.value) else Outside
      invariant result == LinesOf(Outside, texts[..i])
    {
      var text := texts[i];
      assert texts[..i + 1][..i] == texts[..i];
      var line := Line(text, Meta, None, None);
      var hunk := ParseHunk(text);
      if "diff --" <= text {
        before, after := None, None;
      } else if hunk.Some? {
        before, after := Some(hunk.value.0), Some(hunk.value.1);
        line := line.(kind := HunkLine);
      } else if "@@" <= text {
        before, after := None, None;
        line := line.(kind := HunkLine);
      } else if before.Some? && after.Some? {
        if Starts(text, '+') {
          line := line.(kind := Addition, after := after);
          after := Some(after.value + 1);
        } else if Starts(text, '-') {
          line := line.(kind := Deletion, before := before);
          before := Some(before.value + 1);
        } else if Starts(text, ' ') {
          line := line.(kind := Context, before := before, after := after);
          before, after := Some(before.value + 1), Some(after.value + 1);
        }
      }
      result := result + [line];
    }
    assert texts[..|texts|] == texts;
  }

  const MAX_DIFF_BYTES := 2097152

  /** Git's output as `diff` keeps it: cut to the limit, and then back to the last line end there is. */
  function Kept(content: seq<Byte>): seq<Byte> {
    if |content| <= MAX_DIFF_BYTES then content else BeforeLastNewline(content[..MAX_DIFF_BYTES], NEWLINE)
  }

  /** Everything before the last newline, or all of it when there is none. */
  function BeforeLastNewline<T(==)>(s: seq<T>, newline: T): seq<T> {
    if Lacks(s, newline) then s
    else if s[|s| - 1] == newline then s[..|s| - 1]
    else BeforeLastNewline(s[..|s| - 1], newline)
  }

  /** Decoding never joins what a newline separates, as UTF-8 with replacement does not. */
  ghost predicate KeepsNewlines(decode: seq<Byte> -> string) {
    && decode([]) == []
    && forall left, right :: decode(left + [NEWLINE] + right) == decode(left) + [LINE_END] + decode(right)
  }
}
