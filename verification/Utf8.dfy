/** UTF-8 (RFC 3629) over bytes and Unicode scalar values, with the two ways of reading malformed bytes. */
module Utf8 {
  import opened Records

  /** Unicode scalar values: code points that are not surrogates. */
  type Scalar = c: int | 0 <= c < 0xD800 || 0xE000 <= c < 0x110000 witness 0

  type Text = seq<Scalar>

  // ----- encoding and decoding -----

  /** Section 3 of RFC 3629. */
  function EncodeScalar(c: Scalar): (bytes: seq<Byte>)
    ensures 1 <= |bytes| <= 4
  {
    if c < 0x80 then [c]
    else if c < 0x800 then [0xC0 + c / 64, 0x80 + c % 64]
    else if c < 0x10000 then [0xE0 + c / 64 / 64, 0x80 + c / 64 % 64, 0x80 + c % 64]
    else [0xF0 + c / 64 / 64 / 64, 0x80 + c / 64 / 64 % 64, 0x80 + c / 64 % 64, 0x80 + c % 64]
  }

  function Encode(text: Text): seq<Byte> {
    if text == [] then [] else EncodeScalar(text[0]) + Encode(text[1..])
  }

  predicate Continuation(b: Byte) {
    0x80 <= b < 0xC0
  }

  datatype Decoded = Malformed | Decoded(c: Scalar, width: nat)

  /** A decoded value, unless it is too small for its width, a surrogate or too large. */
  function InRange(value: int, low: nat, width: nat): (d: Decoded)
    ensures d.Decoded? ==> d.width == width
  {
    if low <= value < 0xD800 || (low <= value && 0xE000 <= value < 0x110000) then Decoded(value, width) else Malformed
  }

  function Append(high: int, b: int): int {
    high * 64 + b - 0x80
  }

  /** The scalar at the start of the bytes, if a whole well-formed sequence is there. */
  function First(bytes: seq<Byte>): (d: Decoded)
    requires bytes != []
    ensures d.Decoded? ==> 1 <= d.width <= |bytes|
  {
    var b: int := bytes[0];
    if b < 0x80 then Decoded(b, 1)
    else if 0xC2 <= b < 0xE0 then
      if |bytes| >= 2 && Continuation(bytes[1]) then InRange(Append(b - 0xC0, bytes[1]), 0x80, 2) else Malformed
    else if 0xE0 <= b < 0xF0 then
      if |bytes| >= 3 && Continuation(bytes[1]) && Continuation(bytes[2])
      then InRange(Append(Append(b - 0xE0, bytes[1]), bytes[2]), 0x800, 3) else Malformed
    else if 0xF0 <= b < 0xF5 then
      if |bytes| >= 4 && Continuation(bytes[1]) && Continuation(bytes[2]) && Continuation(bytes[3])
      then InRange(Append(Append(Append(b - 0xF0, bytes[1]), bytes[2]), bytes[3]), 0x10000, 4) else Malformed
    else Malformed
  }

  /** Decoding that skips malformed bytes; skipping a broken sequence byte by byte or at once leaves the same text. */
  function DecodeIgnore(bytes: seq<Byte>): Text {
    if bytes == [] then []
    else
      match First(bytes)
      case Malformed => DecodeIgnore(bytes[1..])
      case Decoded(c, width) => [c] + DecodeIgnore(bytes[width..])
  }

  // ----- decoding what was encoded -----

  lemma {:induction false} EncodeConcat(left: Text, right: Text)
    ensures Encode(left + right) == Encode(left) + Encode(right)
  {
    if left == [] {
      assert left + right == right;
    } else {
      assert (left + right)[1..] == left[1..] + right;
      EncodeConcat(left[1..], right);
    }
  }

  lemma EncodeOne(c: Scalar)
    ensures Encode([c]) == EncodeScalar(c)
  {
  }

  lemma FirstOfEncoded(c: Scalar, rest: seq<Byte>)
    ensures First(EncodeScalar(c) + rest) == Decoded(c, |EncodeScalar(c)|)
  {
  }

  lemma EncodeFirst(text: Text, rest: seq<Byte>)
    requires text != []
    ensures Encode(text) + rest == EncodeScalar(text[0]) + (Encode(text[1..]) + rest)
  {
  }

  lemma EncodeNothing(rest: seq<Byte>)
    ensures Encode([]) + rest == rest
  {
  }

  /** Decoding undoes encoding, whatever follows. */
  lemma {:induction false} DecodeEncoded(text: Text, rest: seq<Byte>)
    ensures DecodeIgnore(Encode(text) + rest) == text + DecodeIgnore(rest)
  {
    hide Encode, EncodeScalar, DecodeIgnore;
    if text == [] {
      EncodeNothing(rest);
    } else {
      EncodeFirst(text, rest);
      DecodeEncoded(text[1..], rest);
      DecodeFirst(text[0], Encode(text[1..]) + rest);
      assert text == [text[0]] + text[1..];
    }
  }

  lemma DecodeFirst(c: Scalar, rest: seq<Byte>)
    ensures DecodeIgnore(EncodeScalar(c) + rest) == [c] + DecodeIgnore(rest)
  {
    FirstOfEncoded(c, rest);
    hide First, EncodeScalar;
    var first := EncodeScalar(c);
    assert (first + rest)[|first|..] == rest;
  }

  /** Continuation bytes alone decode to nothing. */
  lemma {:induction false} ContinuationsIgnored(bytes: seq<Byte>, rest: seq<Byte>)
    requires forall b | b in bytes :: Continuation(b)
    ensures DecodeIgnore(bytes + rest) == DecodeIgnore(rest)
  {
    if bytes == [] {
      assert bytes + rest == rest;
    } else {
      assert bytes[0] in bytes && (bytes + rest)[0] == bytes[0];
      assert (bytes + rest)[1..] == bytes[1..] + rest;
      ContinuationsIgnored(bytes[1..], rest);
    }
  }

  lemma TailIsContinuation(c: Scalar, k: nat)
    requires 0 < k <= |EncodeScalar(c)|
    ensures forall b | b in EncodeScalar(c)[k..] :: Continuation(b)
  {
  }

  lemma PartialMalformed(c: Scalar, k: nat)
    requires 0 < k < |EncodeScalar(c)|
    ensures First(EncodeScalar(c)[..k]) == Malformed
  {
  }

  /** A sequence cut short decodes to nothing. */
  lemma PartialIgnored(c: Scalar, k: nat)
    requires k < |EncodeScalar(c)|
    ensures DecodeIgnore(EncodeScalar(c)[..k]) == []
  {
    if k > 0 {
      var part := EncodeScalar(c)[..k];
      PartialMalformed(c, k);
      TailIsContinuation(c, 1);
      assert forall b | b in part[1..] :: b in EncodeScalar(c)[1..];
      hide EncodeScalar, First;
      ContinuationsIgnored(part[1..], []);
      assert part[1..] + [] == part[1..];
    }
  }

  lemma NothingDecoded()
    ensures DecodeIgnore([]) == []
  {
  }

  // ----- decoding with replacement -----

  const REPLACEMENT: Scalar := 0xFFFD

  /** The bytes that may follow a lead byte, short of overlong forms, surrogates and values that are too large. */
  predicate SecondOk(lead: Byte, b: Byte) {
    && Continuation(b)
    && (lead == 0xE0 ==> 0xA0 <= b) && (lead == 0xED ==> b < 0xA0)
    && (lead == 0xF0 ==> 0x90 <= b) && (lead == 0xF4 ==> b < 0x90)
  }

  /** These are the second bytes of the well-formed sequences of three and four bytes, and no others. */
  lemma SecondOkIff(bytes: seq<Byte>)
    requires bytes != [] && 0xE0 <= bytes[0] < 0xF5 && |bytes| == if bytes[0] < 0xF0 then 3 else 4
    requires forall i | 2 <= i < |bytes| :: Continuation(bytes[i])
    ensures First(bytes).Decoded? <==> SecondOk(bytes[0], bytes[1])
  {
  }

  /** How many bytes one replacement stands for: the longest start of a well-formed sequence, and at least one. */
  function BrokenWidth(bytes: seq<Byte>): (width: nat)
    requires bytes != []
    ensures 1 <= width <= |bytes|
  {
    if !(0xE0 <= bytes[0] < 0xF5) || |bytes| == 1 || !SecondOk(bytes[0], bytes[1]) then 1
    else if bytes[0] < 0xF0 || |bytes| == 2 || !Continuation(bytes[2]) then 2
    else 3
  }

  /** The next scalar, or a replacement for what is malformed, and how many bytes it takes. */
  function Next(bytes: seq<Byte>): (next: (Scalar, nat))
    requires bytes != []
    ensures 1 <= next.1 <= |bytes|
  {
    match First(bytes)
    case Malformed => (REPLACEMENT, BrokenWidth(bytes))
    case Decoded(c, width) => (c, width)
  }

  function DecodeReplace(bytes: seq<Byte>): Text {
    if bytes == [] then [] else [Next(bytes).0] + DecodeReplace(bytes[Next(bytes).1..])
  }

  lemma DecodeNext(bytes: seq<Byte>)
    requires bytes != []
    ensures DecodeReplace(bytes) == [Next(bytes).0] + DecodeReplace(bytes[Next(bytes).1..])
  {
  }

  /** What comes next does not depend on anything from a newline on. */
  lemma NewlineEndsSequence(left: seq<Byte>, right: seq<Byte>)
    requires left != []
    ensures Next(left + [NEWLINE] + right) == Next(left)
  {
    var whole := left + [NEWLINE] + right;
    assert whole[|left|] == NEWLINE && whole[..|left|] == left;
  }

  lemma NewlineFirst(right: seq<Byte>)
    ensures DecodeReplace([NEWLINE] + right) == [NEWLINE] + DecodeReplace(right)
  {
    assert ([NEWLINE] + right)[1..] == right;
  }

  lemma NothingReplaced()
    ensures DecodeReplace([]) == []
  {
  }

  /** Decoding with replacement never joins what a newline separates. */
  lemma {:induction false} ReplaceKeepsNewlines(left: seq<Byte>, right: seq<Byte>)
    ensures DecodeReplace(left + [NEWLINE] + right) == DecodeReplace(left) + [NEWLINE] + DecodeReplace(right)
    decreases |left|
  {
    hide Next, DecodeReplace;
    NothingReplaced();
    if left == [] {
      assert left + [NEWLINE] + right == [NEWLINE] + right;
      NewlineFirst(right);
    } else {
      var whole, width := left + [NEWLINE] + right, Next(left).1;
      NewlineEndsSequence(left, right);
      DecodeNext(whole);
      DecodeNext(left);
      assert whole[width..] == left[width..] + [NEWLINE] + right;
      ReplaceKeepsNewlines(left[width..], right);
      assert [Next(left).0] + (DecodeReplace(left[width..]) + [NEWLINE] + DecodeReplace(right))
        == [Next(left).0] + DecodeReplace(left[width..]) + [NEWLINE] + DecodeReplace(right);
    }
  }

  /** Decoding with replacement undoes encoding. */
  lemma {:induction false} ReplaceDecodesEncoded(text: Text)
    ensures DecodeReplace(Encode(text)) == text
  {
    if text != [] {
      var first, rest := EncodeScalar(text[0]), Encode(text[1..]);
      FirstOfEncoded(text[0], rest);
      hide First, EncodeScalar;
      assert (first + rest)[|first|..] == rest;
      ReplaceDecodesEncoded(text[1..]);
    }
  }
}
