/** `_truncate_output`: command output cut to a byte limit, on Unicode text in UTF-8 (RFC 3629). */
module TruncateOutput {
  import opened Records
  import opened Utf8

  const OUTPUT_LIMIT_BYTES := 65536

  // ----- the function -----

  /** " <output truncated> " */
  const WORDS: Text := [32, 60, 111, 117, 116, 112, 117, 116, 32, 116, 114, 117, 110, 99, 97, 116, 101, 100, 62, 32]

  const EDGE: Text := [NEWLINE]

  const DOTS: Text := [0x2026]

  const MARKER: Text := EDGE + DOTS + WORDS + DOTS + EDGE

  datatype Shown = Shown(text: Text, byteCount: nat, truncated: bool)

  /** The last `size` bytes; a size of zero gives all of them, as a slice from minus zero does. */
  function LastBytes(bytes: seq<Byte>, size: nat): seq<Byte>
    requires size <= |bytes|
  {
    if size == 0 then bytes else bytes[|bytes| - size..]
  }

  function PayloadLimit(limit: nat): (payload: nat)
    ensures payload <= limit
  {
    if limit < 28 then 0 else limit - 28
  }

  function HeadSize(limit: nat): (size: nat)
    ensures size <= PayloadLimit(limit)
  {
    PayloadLimit(limit) * 3 / 4
  }

  function TailSize(limit: nat): (size: nat)
    ensures HeadSize(limit) + size == PayloadLimit(limit)
  {
    PayloadLimit(limit) - HeadSize(limit)
  }

  function Truncate(raw: Text, limit: nat, redact: Text -> Text): Shown {
    var text := redact(raw);
    var encoded := Encode(text);
    if |encoded| <= limit then Shown(text, |Encode(raw)|, |Encode(raw)| > limit)
    else
      var head := DecodeIgnore(encoded[..HeadSize(limit)]);
      var tail := DecodeIgnore(LastBytes(encoded, TailSize(limit)));
      Shown(head + MARKER + tail, |Encode(raw)|, true)
  }

  // ----- cuts -----

  /** Keeping the first `k` bytes keeps whole scalars and loses at most three bytes. */
  lemma {:induction false} CutHead(text: Text, k: nat) returns (n: nat)
    requires k <= |Encode(text)|
    ensures n <= |text| && DecodeIgnore(Encode(text)[..k]) == text[..n]
    ensures k - 3 <= |Encode(text[..n])| <= k
  {
    hide EncodeScalar, First, DecodeIgnore;
    NothingDecoded();
    if text == [] || k == 0 {
      n := 0;
      assert Encode(text)[..k] == [] && text[..n] == [];
    } else {
      var first, rest := EncodeScalar(text[0]), Encode(text[1..]);
      if k < |first| {
        n := 0;
        assert Encode(text)[..k] == first[..k] && text[..n] == [];
        PartialIgnored(text[0], k);
      } else {
        var m := CutHead(text[1..], k - |first|);
        n := m + 1;
        HeadSnoc(text, k, m);
      }
    }
  }

  /** One more scalar before a cut. */
  lemma HeadSnoc(text: Text, k: nat, m: nat)
    requires text != [] && m < |text|
    requires |EncodeScalar(text[0])| <= k <= |Encode(text)|
    ensures |Encode(text)| == |EncodeScalar(text[0])| + |Encode(text[1..])|
    ensures DecodeIgnore(Encode(text)[..k]) == [text[0]] + DecodeIgnore(Encode(text[1..])[..k - |EncodeScalar(text[0])|])
    ensures text[..m + 1] == [text[0]] + text[1..][..m]
    ensures |Encode(text[..m + 1])| == |EncodeScalar(text[0])| + |Encode(text[1..][..m])|
  {
    hide EncodeScalar, First, DecodeIgnore;
    var first := EncodeScalar(text[0]);
    var part := Encode(text[1..])[..k - |first|];
    assert Encode(text)[..k] == first + part;
    EncodeOne(text[0]);
    DecodeEncoded([text[0]], part);
    EncodeConcat([text[0]], text[1..][..m]);
    assert text[..m + 1] == [text[0]] + text[1..][..m];
  }

  /** Dropping the first `k` bytes keeps whole scalars and loses at most three bytes more. */
  lemma {:induction false} CutTail(text: Text, k: nat) returns (n: nat)
    requires k <= |Encode(text)|
    ensures n <= |text| && DecodeIgnore(Encode(text)[k..]) == text[n..]
    ensures |Encode(text)| - k - 3 <= |Encode(text[n..])| <= |Encode(text)| - k
  {
    if k == 0 || text == [] {
      n := 0;
      assert Encode(text)[k..] == Encode(text) + [] && text[n..] == text;
      DecodeEncoded(text, []);
      assert text + [] == text;
    } else {
      var first, rest := EncodeScalar(text[0]), Encode(text[1..]);
      if k < |first| {
        n := 1;
        assert Encode(text)[k..] == first[k..] + rest;
        TailIsContinuation(text[0], k);
        hide EncodeScalar, First, DecodeIgnore;
        ContinuationsIgnored(first[k..], rest);
        DecodeEncoded(text[1..], []);
        assert rest + [] == rest && text[1..] + DecodeIgnore([]) == text[1..] by {
          NothingDecoded();
        }
      } else {
        var m := CutTail(text[1..], k - |first|);
        n := m + 1;
        assert Encode(text)[k..] == rest[k - |first|..];
        assert text[1..][m..] == text[n..];
      }
    }
  }

  lemma {:induction false} EncodeOrder(text: Text, m: nat, n: nat)
    requires m <= |text| && n <= |text| && |Encode(text[..m])| + |Encode(text[n..])| < |Encode(text)|
    ensures m <= n
  {
    if n < m {
      assert text[..m] == text[..n] + text[n..m] && text == text[..n] + text[n..];
      EncodeConcat(text[..n], text[n..m]);
      EncodeConcat(text[..n], text[n..]);
    }
  }

  lemma {:induction false} AsciiBytes(text: Text)
    requires forall c | c in text :: c < 0x80
    ensures |Encode(text)| == |text|
  {
    if text != [] {
      assert text[0] in text && forall c | c in text[1..] :: c in text;
      AsciiBytes(text[1..]);
    }
  }

  lemma MarkerBytes()
    ensures |Encode(MARKER)| == 28
  {
    hide Encode, EncodeScalar;
    WordBytes();
    EdgeBytes();
    EncodeConcat(EDGE + DOTS + WORDS + DOTS, EDGE);
    EncodeConcat(EDGE + DOTS + WORDS, DOTS);
    EncodeConcat(EDGE + DOTS, WORDS);
    EncodeConcat(EDGE, DOTS);
  }

  lemma WordBytes()
    ensures |Encode(WORDS)| == 20
  {
    hide Encode;
    AsciiBytes(WORDS);
  }

  lemma EdgeBytes()
    ensures |Encode(EDGE)| == 1 && |Encode(DOTS)| == 3
  {
  }

  // ----- the promise -----

  /**
  A cut text: a prefix, the marker and a later suffix. Three quarters of what the limit leaves go to the prefix and the
  rest to the suffix, with at most three bytes lost at each cut.
  */
  ghost predicate CutOf(shown: Text, text: Text, limit: nat) {
    exists m: nat, n: nat :: IsCut(shown, text, limit, m, n)
  }

  ghost predicate IsCut(shown: Text, text: Text, limit: nat, m: nat, n: nat) {
    && m <= n <= |text| && shown == text[..m] + MARKER + text[n..]
    && (limit - 28) * 3 / 4 - 3 <= |Encode(text[..m])| <= (limit - 28) * 3 / 4
    && (limit - 25) / 4 - 3 <= |Encode(text[n..])| <= (limit - 25) / 4
  }

  /** Any limit above the marker's size is kept; the byte count is of the raw text, and a cut keeps both ends. */
  lemma TruncateKeepsLimit(raw: Text, limit: nat, redact: Text -> Text)
    requires limit > 28
    ensures var r, text := Truncate(raw, limit, redact), redact(raw);
      && |Encode(r.text)| <= limit && r.byteCount == |Encode(raw)|
      && (r.truncated <==> |Encode(raw)| > limit || |Encode(text)| > limit)
      && if |Encode(text)| <= limit then r.text == text else CutOf(r.text, text, limit)
  {
    var text := redact(raw);
    var encoded := Encode(text);
    hide DecodeIgnore, Encode, MARKER;
    if |encoded| > limit {
      var m := CutHead(text, HeadSize(limit));
      var n := CutTail(text, |encoded| - TailSize(limit));
      EncodeOrder(text, m, n);
      assert IsCut(Truncate(raw, limit, redact).text, text, limit, m, n);
      CutSize(Truncate(raw, limit, redact).text, text, limit, m, n);
    }
  }

  lemma CutSize(shown: Text, text: Text, limit: nat, m: nat, n: nat)
    requires IsCut(shown, text, limit, m, n)
    ensures |Encode(shown)| <= 28 + (limit - 28) * 3 / 4 + (limit - 25) / 4
  {
    hide Encode, MARKER;
    EncodeConcat(text[..m] + MARKER, text[n..]);
    EncodeConcat(text[..m], MARKER);
    MarkerBytes();
  }

  /** A text that must be cut keeps to the limit exactly when the limit leaves room for more than the marker. */
  lemma CutFitsIff(raw: Text, limit: nat, redact: Text -> Text)
    requires |Encode(redact(raw))| > limit
    ensures |Encode(Truncate(raw, limit, redact).text)| <= limit <==> limit > 28
  {
    if limit > 28 {
      TruncateKeepsLimit(raw, limit, redact);
    } else {
      var text := redact(raw);
      assert HeadSize(limit) == 0 && TailSize(limit) == 0;
      NothingDecoded();
      DecodeEncoded(text, []);
      hide DecodeIgnore, Encode, First;
      assert Encode(text) + [] == Encode(text) && text + [] == text;
      assert Encode(text)[..0] == [];
      assert Truncate(raw, limit, redact).text == MARKER + text;
      EncodeConcat(MARKER, text);
      MarkerBytes();
    }
  }

  /** With the default limit, at most 64 KiB of well-formed UTF-8 that decodes to the text shown. */
  lemma DefaultLimitKept(raw: Text, redact: Text -> Text)
    ensures var r := Truncate(raw, OUTPUT_LIMIT_BYTES, redact);
      && |Encode(r.text)| <= 65536 && DecodeIgnore(Encode(r.text)) == r.text
      && (|Encode(redact(raw))| > 65536 ==> CutOf(r.text, redact(raw), 65536))
  {
    TruncateKeepsLimit(raw, OUTPUT_LIMIT_BYTES, redact);
    var shown := Truncate(raw, OUTPUT_LIMIT_BYTES, redact).text;
    DecodeEncoded(shown, []);
    NothingDecoded();
    hide Encode, DecodeIgnore;
    assert Encode(shown) + [] == Encode(shown) && shown + [] == shown;
  }
}
