/** What the numbers of a unified diff (POSIX.1-2008, "Diff -u or -U Output Format") say about the two files. */
module DiffTheorems {
  import opened Records
  import opened DiffLines
  import opened Utf8

  // ----- joining and cutting -----

  lemma {:induction false} SplitJoin<T>(s: seq<T>, newline: T)
    ensures Join(Split(s, newline), newline) == s
  {
    if s != [] {
      var front, last := Split(s[..|s| - 1], newline), s[|s| - 1];
      SplitJoin(s[..|s| - 1], newline);
      var n := |front| - 1;
      assert s == s[..|s| - 1] + [last];
      if last == newline {
        assert (front + [[]])[..|front|] == front;
      } else {
        assert front[n := front[n] + [last]][..n] == front[..n];
      }
    }
  }

  /** Splitting a joined list gives the list back. */
  lemma {:induction false} JoinSplit<T>(parts: seq<seq<T>>, newline: T)
    requires parts != [] && forall p | p in parts :: Lacks(p, newline)
    ensures Split(Join(parts, newline), newline) == parts
  {
    hide Split, Lacks;
    var n := |parts| - 1;
    assert parts[n] in parts && forall p | p in parts[..n] :: p in parts;
    SplitOne(parts[n], newline);
    if n == 0 {
      assert parts == [parts[0]];
    } else {
      JoinSplit(parts[..n], newline);
      SplitAround(Join(parts[..n], newline), parts[n], newline);
      assert parts == parts[..n] + [parts[n]];
    }
  }

  /** Joining the texts of the numbered lines restores the patch, up to its final newline. */
  lemma TextsRestorePatch(source: string)
    ensures var texts := Texts(LinesOf(Outside, SourceLines(source)));
      Join(texts, LINE_END) == WithoutFinalNewline(source, LINE_END)
  {
    KeepsTexts(Outside, SourceLines(source));
    SplitJoin(WithoutFinalNewline(source, LINE_END), LINE_END);
  }

  function Texts(lines: seq<Line>): (texts: seq<string>)
    ensures |texts| == |lines| && forall i | 0 <= i < |lines| :: texts[i] == lines[i].text
  {
    seq(|lines|, i requires 0 <= i < |lines| => lines[i].text)
  }

  lemma {:induction false} KeepsTexts(c: Counters, texts: seq<string>)
    ensures Texts(LinesOf(c, texts)) == texts
  {
    hide Number, After;
    if texts != [] {
      var n := |texts| - 1;
      KeepsTexts(c, texts[..n]);
      KeepsText(After(c, texts[..n]), texts[n]);
      assert Texts(LinesOf(c, texts)) == Texts(LinesOf(c, texts[..n])) + [texts[n]];
    }
  }

  lemma KeepsText(c: Counters, text: string)
    ensures Number(c, text).0.text == text
  {
  }

  lemma {:induction false} LinesConcat(c: Counters, left: seq<string>, right: seq<string>)
    ensures After(c, left + right) == After(After(c, left), right)
    ensures LinesOf(c, left + right) == LinesOf(c, left) + LinesOf(After(c, left), right)
    decreases |right|
  {
    if right == [] {
      assert left + right == left;
    } else {
      hide Number;
      assert (left + right)[..|left + right| - 1] == left + right[..|right| - 1];
      LinesConcat(c, left, right[..|right| - 1]);
    }
  }

  /** Numbering depends on the lines so far only. */
  lemma PrefixLines(c: Counters, texts: seq<string>, n: nat)
    requires n <= |texts|
    ensures LinesOf(c, texts[..n]) == LinesOf(c, texts)[..n]
  {
    assert texts == texts[..n] + texts[n..];
    LinesConcat(c, texts[..n], texts[n..]);
  }

  lemma {:induction false} SplitAround<T>(a: seq<T>, b: seq<T>, newline: T)
    ensures Split(a + [newline] + b, newline) == Split(a, newline) + Split(b, newline)
    decreases |b|
  {
    var whole := a + [newline] + b;
    if b == [] {
      assert whole[..|whole| - 1] == a;
    } else {
      assert whole[..|whole| - 1] == a + [newline] + b[..|b| - 1];
      SplitAround(a, b[..|b| - 1], newline);
      assert Split(b, newline) != [];
    }
  }

  lemma {:induction false} SplitOne<T>(s: seq<T>, newline: T)
    requires Lacks(s, newline)
    ensures Split(s, newline) == [s]
  {
    if s != [] {
      var n := |s| - 1;
      assert s[n] in s && s == s[..n] + [s[n]];
      SplitOne(s[..n], newline);
    }
  }

  lemma {:induction false} LastNewline<T>(s: seq<T>, newline: T) returns (rest: seq<T>)
    requires !Lacks(s, newline)
    ensures Lacks(rest, newline) && s == BeforeLastNewline(s, newline) + [newline] + rest
    decreases |s|
  {
    if s[|s| - 1] == newline {
      rest := [];
    } else {
      assert s == s[..|s| - 1] + [s[|s| - 1]];
      var front := LastNewline(s[..|s| - 1], newline);
      rest := front + [s[|s| - 1]];
    }
  }

  /** The lines of what ends right before a newline of something longer. */
  lemma CutLines<T>(cut: seq<T>, rest: seq<T>, newline: T)
    requires cut != []
    ensures LinesIn(cut, newline) <= LinesIn(cut + [newline] + rest, newline)
  {
    var whole := cut + [newline] + rest;
    var short := WithoutFinalNewline(cut, newline);
    if short != cut {
      assert cut == short + [newline] + [];
      SplitAround(short, [], newline);
    }
    if rest == [] {
      assert WithoutFinalNewline(whole, newline) == cut;
    } else {
      assert WithoutFinalNewline(whole, newline) == cut + [newline] + WithoutFinalNewline(rest, newline);
      SplitAround(cut, WithoutFinalNewline(rest, newline), newline);
    }
  }

  lemma CutNumbers(cut: string, rest: string)
    ensures LinesOf(Outside, SourceLines(cut)) <= LinesOf(Outside, SourceLines(cut + [LINE_END] + rest))
  {
    if cut == [] {
      assert LinesOf(Outside, SourceLines([])) == [];
    } else {
      hide LinesIn, LinesOf;
      CutLines(cut, rest, LINE_END);
      var whole := SourceLines(cut + [LINE_END] + rest);
      PrefixLines(Outside, whole, |SourceLines(cut)|);
      assert SourceLines(cut) == whole[..|SourceLines(cut)|];
    }
  }

  /** The decoder `_diff_lines` is given: UTF-8, malformed bytes replaced. */
  function DecodeUtf8(bytes: seq<Byte>): string {
    Characters(DecodeReplace(bytes))
  }

  function Characters(text: Text): (s: string)
    ensures |s| == |text|
  {
    seq(|text|, i requires 0 <= i < |text| => text[i] as char)
  }

  /** It keeps newlines apart. */
  lemma Utf8KeepsNewlines()
    ensures KeepsNewlines(DecodeUtf8)
  {
    hide DecodeReplace;
    NothingReplaced();
    forall left, right ensures DecodeUtf8(left + [NEWLINE] + right) == DecodeUtf8(left) + [LINE_END] + DecodeUtf8(right) {
      ReplaceKeepsNewlines(left, right);
      assert NEWLINE as char == LINE_END;
    }
  }

  /** Output cut back to a line end numbers its lines as the whole output does. */
  lemma CutNumbersSame(content: seq<Byte>, decode: seq<Byte> -> string)
    requires KeepsNewlines(decode)
    requires |content| > MAX_DIFF_BYTES ==> !Lacks(content[..MAX_DIFF_BYTES], NEWLINE)
    ensures LinesOf(Outside, SourceLines(decode(Kept(content)))) <= LinesOf(Outside, SourceLines(decode(content)))
  {
    hide BeforeLastNewline, SourceLines, LinesOf, Lacks;
    if |content| > MAX_DIFF_BYTES {
      var kept, start := Kept(content), content[..MAX_DIFF_BYTES];
      var rest := LastNewline(start, NEWLINE);
      var dropped := rest + content[MAX_DIFF_BYTES..];
      assert content == start + content[MAX_DIFF_BYTES..];
      assert start + content[MAX_DIFF_BYTES..] == kept + [NEWLINE] + dropped;
      CutNumbers(decode(kept), decode(dropped));
    }
  }

  /** What is kept of the output: all of it up to two megabytes, else the lines that end within those, or all of them without one. */
  lemma KeptIs(content: seq<Byte>)
    ensures |content| <= 2097152 ==> Kept(content) == content
    ensures |content| > 2097152 ==> var start := content[..2097152];
      if 10 in start then Kept(content) + [10] <= start && 10 !in start[|Kept(content)| + 1..] else Kept(content) == start
  {
    if |content| > 2097152 {
      LastNewlineIs(content[..2097152]);
    }
  }

  lemma {:induction false} LastNewlineIs(s: seq<Byte>)
    ensures if NEWLINE in s then BeforeLastNewline(s, NEWLINE) + [NEWLINE] <= s && NEWLINE !in s[|BeforeLastNewline(s, NEWLINE)| + 1..]
            else BeforeLastNewline(s, NEWLINE) == s
  {
    if NEWLINE in s && s[|s| - 1] != NEWLINE {
      var front := s[..|s| - 1];
      assert s == front + [s[|s| - 1]];
      LastNewlineIs(front);
      var k := |BeforeLastNewline(front, NEWLINE)| + 1;
      assert s[k..] == front[k..] + [s[|s| - 1]];
    }
  }

  /** Without a newline before the limit, the kept bytes are one line: the output's own exactly when that ends at the limit. */
  lemma CutWithoutNewline(content: seq<Byte>)
    requires |content| > MAX_DIFF_BYTES && Lacks(content[..MAX_DIFF_BYTES], NEWLINE)
    ensures LinesIn(Kept(content), NEWLINE) <= LinesIn(content, NEWLINE) <==> content[MAX_DIFF_BYTES] == NEWLINE
  {
    var kept, next := content[..MAX_DIFF_BYTES], content[MAX_DIFF_BYTES];
    var rest := content[MAX_DIFF_BYTES + 1..];
    assert Kept(content) == kept && kept[|kept| - 1] in kept;
    SplitOne(kept, NEWLINE);
    assert content == kept + [next] + rest;
    if next == NEWLINE {
      CutLines(kept, rest, NEWLINE);
    } else {
      assert content == (kept + [next]) + rest;
      LongerFirst(kept + [next], rest, NEWLINE);
      assert Lacks(kept + [next], NEWLINE);
    }
  }

  lemma {:induction false} LongerFirst<T>(start: seq<T>, rest: seq<T>, newline: T)
    requires Lacks(start, newline) && start != []
    ensures var lines := LinesIn(start + rest, newline);
      lines != [] && |lines[0]| >= |start|
  {
    if rest == [] || rest == [newline] {
      assert WithoutFinalNewline(start + rest, newline) == start by {
        assert start[|start| - 1] in start;
        assert start + [] == start;
      }
      SplitOne(start, newline);
    } else {
      assert WithoutFinalNewline(start + rest, newline) == start + WithoutFinalNewline(rest, newline);
      FirstPart(start, WithoutFinalNewline(rest, newline), newline);
    }
  }

  lemma {:induction false} FirstPart<T>(start: seq<T>, rest: seq<T>, newline: T)
    requires Lacks(start, newline)
    ensures |Split(start + rest, newline)[0]| >= |start|
    decreases |rest|
  {
    if rest == [] {
      assert start + rest == start;
      SplitOne(start, newline);
    } else {
      assert (start + rest)[..|start + rest| - 1] == start + rest[..|rest| - 1];
      FirstPart(start, rest[..|rest| - 1], newline);
    }
  }
}
