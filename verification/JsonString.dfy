/** The escaping that the JSON encoder applies to keys and strings, and the reader of
    section 7 of RFC 8259 that undoes it. */
module JsonString {
  import Sequences
  import opened Utf8

  const QUOTE: byte := 0x22
  const BACKSLASH: byte := 0x5C
  const NEWLINE: byte := 0x0A

  /** "0123456789abcdef"[d] */
  function HexDigit(d: nat): byte
    requires d < 16
  {
    if d < 10 then 0x30 + d else 0x61 + (d - 10)
  }

  function EscapeAscii(b: byte): Bytes {
    if 0x20 <= b && b != BACKSLASH && b != QUOTE then [b]
    else if b == BACKSLASH || b == QUOTE then [BACKSLASH, b]
    else if b == 0x0A then [BACKSLASH, 0x6E]
    else if b == 0x0D then [BACKSLASH, 0x72]
    else if b == 0x09 then [BACKSLASH, 0x74]
    else [BACKSLASH, 0x75, 0x30, 0x30, HexDigit(b / 16), HexDigit(b % 16)]
  }

  /** The text \ufffd */
  const ESCAPED_ERROR: Bytes := [BACKSLASH, 0x75, 0x66, 0x66, 0x66, 0x64]

  /** How many bytes of `s` one step of the escaping loop consumes, and what it appends. */
  function StepLen(s: Bytes): (n: nat)
    requires s != []
    ensures 1 <= n <= |s|
  {
    if RuneLen(s) == 0 then 1 else RuneLen(s)
  }

  function StepText(s: Bytes): Bytes
    requires s != []
  {
    if s[0] < RUNE_SELF then EscapeAscii(s[0])
    else if RuneLen(s) == 0 then ESCAPED_ERROR
    else s[..RuneLen(s)]
  }

  function Escape(s: Bytes): Bytes {
    if s == [] then [] else StepText(s) + Escape(s[StepLen(s)..])
  }

  lemma EscapeUnfold(s: Bytes)
    requires s != []
    ensures Escape(s) == StepText(s) + Escape(s[StepLen(s)..])
  {
  }

  lemma StepCases(s: Bytes)
    requires s != []
    ensures s[0] < RUNE_SELF ==> StepText(s) == EscapeAscii(s[0]) && StepLen(s) == 1
    ensures s[0] >= RUNE_SELF && RuneLen(s) == 0 ==> StepText(s) == ESCAPED_ERROR && StepLen(s) == 1
    ensures s[0] >= RUNE_SELF && RuneLen(s) > 0 ==> StepText(s) == s[..StepLen(s)] && StepLen(s) == RuneLen(s)
  {
  }

  // ---- the reader ------------------------------------------------------------------

  datatype StringRead = BadString | StringRead(value: Bytes, rest: Bytes)

  predicate IsHex(b: byte) { 0x30 <= b <= 0x39 || 0x41 <= b <= 0x46 || 0x61 <= b <= 0x66 }

  function HexValue(b: byte): (d: nat)
    requires IsHex(b)
    ensures d < 16
  {
    if b <= 0x39 then b - 0x30 else if b <= 0x46 then b - 0x41 + 10 else b - 0x61 + 10
  }

  /** `s` starts with \uXXXX. */
  predicate IsUnicodeEscape(s: Bytes) {
    |s| >= 6 && s[0] == BACKSLASH && s[1] == 0x75 && IsHex(s[2]) && IsHex(s[3]) && IsHex(s[4]) && IsHex(s[5])
  }

  function CodeUnit(s: Bytes): (u: nat)
    requires IsUnicodeEscape(s)
    ensures u < 0x10000
  {
    ((HexValue(s[2]) * 16 + HexValue(s[3])) * 16 + HexValue(s[4])) * 16 + HexValue(s[5])
  }

  /** The bytes an escape sequence stands for and its length; length 0 when there is none.
      An unpaired surrogate is rejected: section 8.2 of RFC 8259 gives it no meaning. */
  function ReadEscape(s: Bytes): (r: (Bytes, nat))
    ensures r.1 <= |s|
  {
    if |s| < 2 || s[0] != BACKSLASH then ([], 0)
    else if s[1] == QUOTE || s[1] == BACKSLASH || s[1] == 0x2F then ([s[1]], 2)
    else if s[1] == 0x62 then ([0x08], 2)
    else if s[1] == 0x66 then ([0x0C], 2)
    else if s[1] == 0x6E then ([0x0A], 2)
    else if s[1] == 0x72 then ([0x0D], 2)
    else if s[1] == 0x74 then ([0x09], 2)
    else if !IsUnicodeEscape(s) then ([], 0)
    else if !(0xD800 <= CodeUnit(s) < 0xE000) then (EncodeRune(CodeUnit(s)), 6)
    else if CodeUnit(s) < 0xDC00 && IsUnicodeEscape(s[6..]) && 0xDC00 <= CodeUnit(s[6..]) < 0xE000 then
      (EncodeRune(0x10000 + (CodeUnit(s) - 0xD800) * 0x400 + (CodeUnit(s[6..]) - 0xDC00)), 12)
    else ([], 0)
  }

  function Prepend(x: Bytes, r: StringRead): StringRead {
    if r.BadString? then BadString else StringRead(x + r.value, r.rest)
  }

  /** One character of a string, raw or escaped: its bytes and its length in the text. */
  function ReadChar(s: Bytes): (r: (Bytes, nat))
    ensures r.1 <= |s|
  {
    if s == [] || s[0] < 0x20 || s[0] == QUOTE then ([], 0)
    else if s[0] == BACKSLASH then ReadEscape(s)
    else (s[..RuneLen(s)], RuneLen(s))
  }

  /** Reads a string whose opening quote has already been taken, up to its closing quote. */
  function ReadString(s: Bytes): (r: StringRead)
    ensures r.StringRead? ==> |r.rest| < |s|
  {
    if s != [] && s[0] == QUOTE then StringRead([], s[1..])
    else
      var (value, n) := ReadChar(s);
      if n == 0 then BadString else Prepend(value, ReadString(s[n..]))
  }

  lemma ReadStringStep(s: Bytes)
    requires s != [] && s[0] != QUOTE && ReadChar(s).1 > 0
    ensures ReadString(s) == Prepend(ReadChar(s).0, ReadString(s[ReadChar(s).1..]))
  {
  }

  lemma ReadStringCharPrefix(x: Bytes, y: Bytes)
    requires x != [] && x[0] != QUOTE && ReadChar(x).1 > 0
    ensures ReadString(x + y) == Prepend(ReadChar(x).0, ReadString(x[ReadChar(x).1..] + y))
  {
    ReadCharPrefix(x, y);
    ReadStringStep(x + y);
    assert (x + y)[ReadChar(x).1..] == x[ReadChar(x).1..] + y;
  }

  /** A string read to its end reads the same whatever follows. */
  lemma {:induction false} ReadStringPrefix(x: Bytes, y: Bytes)
    requires ReadString(x).StringRead?
    ensures ReadString(x + y) == StringRead(ReadString(x).value, ReadString(x).rest + y)
  {
    if x[0] == QUOTE {
      assert (x + y)[1..] == x[1..] + y;
    } else {
      ReadStringStep(x);
      ReadStringCharPrefix(x, y);
      ReadStringPrefix(x[ReadChar(x).1..], y);
    }
  }

  lemma ReadCharPrefix(x: Bytes, y: Bytes)
    requires ReadChar(x).1 > 0
    ensures ReadChar(x + y) == ReadChar(x)
  {
    if x[0] == BACKSLASH { ReadEscapePrefix(x, y); } else { RuneLenPrefix(x, y); }
  }

  lemma ReadEscapePrefix(x: Bytes, y: Bytes)
    requires ReadEscape(x).1 > 0
    ensures ReadEscape(x + y) == ReadEscape(x)
  {
    if IsUnicodeEscape(x) {
      assert (x + y)[6..] == x[6..] + y;
    }
  }

  // ---- the round trip --------------------------------------------------------------

  /** Control bytes 0x00-0x1F, quote and backslash come back from their escapes. */
  lemma ReadEscapeAscii(b: byte, y: Bytes)
    requires b < 0x20 || b == QUOTE || b == BACKSLASH
    ensures var e := EscapeAscii(b); ReadEscape(e + y) == ([b], |e|) && e[0] == BACKSLASH
  {
    var e := EscapeAscii(b);
    if |e| == 6 {
      HexRoundTrip(b / 16);
      HexRoundTrip(b % 16);
      var s := e + y;
      assert IsUnicodeEscape(s);
      assert CodeUnit(s) == b / 16 * 16 + b % 16 == b;
    }
  }

  lemma HexRoundTrip(d: nat)
    requires d < 16
    ensures IsHex(HexDigit(d)) && HexValue(HexDigit(d)) == d
  {
  }

  lemma ReadEscapedError(y: Bytes)
    ensures ReadEscape(ESCAPED_ERROR + y) == (REPLACEMENT, 6)
  {
    var s := ESCAPED_ERROR + y;
    assert IsUnicodeEscape(s);
    assert CodeUnit(s) == 0xFFFD;
  }

  /** What the reader makes of one loop step's output. */
  lemma ReadStep(s: Bytes, y: Bytes)
    requires s != []
    ensures ReadString(StepText(s) + y)
         == Prepend(if RuneLen(s) == 0 then REPLACEMENT else s[..RuneLen(s)], ReadString(y))
  {
    var t := StepText(s) + y;
    ReadStepChar(s, y);
    assert t[|StepText(s)|..] == y;
  }

  lemma ReadStepChar(s: Bytes, y: Bytes)
    requires s != []
    ensures var t := StepText(s) + y;
            && t[0] != QUOTE
            && ReadChar(t) == (if RuneLen(s) == 0 then REPLACEMENT else s[..RuneLen(s)], |StepText(s)|)
  {
    var t := StepText(s) + y;
    if s[0] < RUNE_SELF {
      assert s[..1] == [s[0]];
      if s[0] < 0x20 || s[0] == QUOTE || s[0] == BACKSLASH {
        ReadEscapeAscii(s[0], y);
      } else {
        assert t[..1] == [s[0]];
      }
    } else if RuneLen(s) == 0 {
      ReadEscapedError(y);
    } else {
      RuneLenAlone(s);
      RuneLenPrefix(s[..RuneLen(s)], y);
    }
  }

  /** Reading back an escaped string gives the string with every byte that UTF-8 decoding
      rejects replaced by U+FFFD, and stops exactly at the closing quote. */
  lemma {:induction false} EscapeRoundTrip(s: Bytes, y: Bytes)
    ensures ReadString(Escape(s) + [QUOTE] + y) == StringRead(Sanitize(s), y)
  {
    if s == [] {
      assert Escape(s) + [QUOTE] + y == [QUOTE] + y;
    } else {
      var n := StepLen(s);
      var closing := Escape(s[n..]) + [QUOTE] + y;
      calc {
        ReadString(Escape(s) + [QUOTE] + y);
        { assert Escape(s) + [QUOTE] + y == StepText(s) + closing; }
        ReadString(StepText(s) + closing);
        { ReadStep(s, closing); }
        Prepend(if RuneLen(s) == 0 then REPLACEMENT else s[..RuneLen(s)], ReadString(closing));
        { EscapeRoundTrip(s[n..], y); }
        Prepend(if RuneLen(s) == 0 then REPLACEMENT else s[..RuneLen(s)], StringRead(Sanitize(s[n..]), y));
        StringRead(Sanitize(s), y);
      }
    }
  }

  /** Valid UTF-8 comes back unchanged, so escaping is injective on it. */
  lemma EscapeInjective(s: Bytes, t: Bytes)
    requires Valid(s) && Valid(t)
    ensures ReadString(Escape(s) + [QUOTE]) == StringRead(s, [])
    ensures Escape(s) == Escape(t) ==> s == t
  {
    EscapeRoundTrip(s, []);
    EscapeRoundTrip(t, []);
    SanitizeValid(s);
    SanitizeValid(t);
    assert Escape(s) + [QUOTE] + [] == Escape(s) + [QUOTE];
    assert Escape(t) + [QUOTE] + [] == Escape(t) + [QUOTE];
  }

  /** Two strings get the same text only if they agree after replacement. */
  lemma {:induction false} EscapeSanitized(s: Bytes, t: Bytes)
    ensures Escape(s) == Escape(t) ==> Sanitize(s) == Sanitize(t)
  {
    EscapeRoundTrip(s, []);
    EscapeRoundTrip(t, []);
  }

  /** Every quote in the text is escaped: none of them would end the string. */
  predicate NoBareQuote(t: Bytes) {
    if t == [] then true
    else if t[0] == BACKSLASH then |t| >= 2 && NoBareQuote(t[2..])
    else t[0] != QUOTE && NoBareQuote(t[1..])
  }

  lemma {:induction false} NoBareQuoteConcat(x: Bytes, y: Bytes)
    requires NoBareQuote(x) && NoBareQuote(y)
    ensures NoBareQuote(x + y)
    decreases |x|
  {
    if x == [] {
      assert x + y == y;
    } else {
      var n := if x[0] == BACKSLASH then 2 else 1;
      assert (x + y)[n..] == x[n..] + y;
      NoBareQuoteConcat(x[n..], y);
    }
  }

  lemma {:induction false} PlainText(t: Bytes)
    requires forall i | 0 <= i < |t| :: t[i] != QUOTE && t[i] != BACKSLASH
    ensures NoBareQuote(t)
    decreases |t|
  {
    if t != [] { PlainText(t[1..]); }
  }

  lemma StepQuotes(s: Bytes)
    requires s != []
    ensures NoBareQuote(StepText(s))
  {
    var t := StepText(s);
    StepCases(s);
    if t[0] == BACKSLASH {
      PlainText(t[2..]);
    } else {
      PlainText(t);
    }
  }

  /** The output is valid UTF-8 without raw control bytes or bare quotes, and at most six times
      as long. */
  lemma {:induction false} EscapeClean(s: Bytes)
    ensures Valid(Escape(s))
    ensures forall i | 0 <= i < |Escape(s)| :: Escape(s)[i] >= 0x20
    ensures NoBareQuote(Escape(s))
    ensures |Escape(s)| <= 6 * |s|
  {
    if s != [] {
      var tail := s[StepLen(s)..];
      EscapeClean(tail);
      StepClean(s);
      StepQuotes(s);
      ValidConcat(StepText(s), Escape(tail));
      NoBareQuoteConcat(StepText(s), Escape(tail));
    }
  }

  lemma EscapeAsciiClean(b: byte)
    requires b < RUNE_SELF
    ensures Ascii(EscapeAscii(b)) && |EscapeAscii(b)| <= 6
    ensures forall i | 0 <= i < |EscapeAscii(b)| :: EscapeAscii(b)[i] >= 0x20
  {
  }

  lemma StepClean(s: Bytes)
    requires s != []
    ensures Valid(StepText(s)) && |StepText(s)| <= 6 * StepLen(s)
    ensures forall i | 0 <= i < |StepText(s)| :: StepText(s)[i] >= 0x20
  {
    if s[0] < RUNE_SELF {
      EscapeAsciiClean(s[0]);
      AsciiValid(EscapeAscii(s[0]));
    } else if RuneLen(s) == 0 {
      AsciiValid(ESCAPED_ERROR);
    } else {
      RuneLenAlone(s);
      ValidRune(s[..RuneLen(s)]);
    }
  }

  // ---- the output by code points ---------------------------------------------------------------

  /** Escaping a text, by what it starts with: the form of a scalar value beyond ASCII stays, a
      byte where no form starts becomes \ufffd, and an ASCII byte its own form. */
  lemma EscapeExact(s: Bytes)
    requires s != []
    ensures forall cp :: StartsWith(s, cp) && cp >= 0x80 ==>
              Escape(s) == EncodeRune(cp) + Escape(s[|EncodeRune(cp)|..])
    ensures (forall cp :: !StartsWith(s, cp)) ==>
              Escape(s) == [BACKSLASH, 0x75, 0x66, 0x66, 0x66, 0x64] + Escape(s[1..])
    ensures s[0] < 0x80 ==> Escape(s) == EscapeAscii(s[0]) + Escape(s[1..])
  {
    CharacterExact(s);
    forall cp | StartsWith(s, cp) && cp >= 0x80
      ensures Escape(s) == EncodeRune(cp) + Escape(s[|EncodeRune(cp)|..])
    {
      assert s[..RuneLen(s)] == EncodeRune(cp);
    }
  }

  /** The forms of ASCII bytes: only control bytes, quotes and backslashes are escaped, with the
      short form of a line feed, carriage return or tab, and lower-case digits otherwise. */
  lemma AsciiForms(b: byte)
    requires b < 0x80
    ensures b >= 0x20 && b != QUOTE && b != BACKSLASH <==> EscapeAscii(b) == [b]
    ensures b == QUOTE || b == BACKSLASH ==> EscapeAscii(b) == [BACKSLASH, b]
    ensures b in {0x09, 0x0A, 0x0D} ==>
              EscapeAscii(b) == [BACKSLASH, if b == 0x09 then 0x74 else if b == 0x0A then 0x6E else 0x72]
    ensures b < 0x20 && b !in {0x09, 0x0A, 0x0D} ==>
              EscapeAscii(b) == [BACKSLASH, 0x75, 0x30, 0x30, 0x30 + b / 16,
                                 if b % 16 < 10 then 0x30 + b % 16 else 0x57 + b % 16]
  {
  }

  /** There are no control bytes, quotes and backslashes. */
  predicate IsPlainText(s: Bytes) { forall i | 0 <= i < |s| :: s[i] >= 0x20 && s[i] != QUOTE && s[i] != BACKSLASH }

  lemma PlainParts(s: Bytes, n: nat)
    requires n <= |s|
    ensures IsPlainText(s) <==> IsPlainText(s[..n]) && IsPlainText(s[n..])
  {
    assert forall i | n <= i < |s| :: s[i] == s[n..][i - n];
  }

  /** No escaping is done that is not needed: a text stays as it is exactly when it is valid UTF-8
      without control bytes, quotes and backslashes. */
  lemma {:induction false} EscapeIdentity(s: Bytes)
    ensures Escape(s) == s <==> Valid(s) && IsPlainText(s)
    decreases |s|
  {
    if s != [] {
      var (n, text) := (StepLen(s), StepText(s));
      EscapeIdentity(s[n..]);
      EscapeLonger(s[n..]);
      StepIdentity(s);
      Sequences.SameParts(text, Escape(s[n..]), s[..n], s[n..]);
      Sequences.Cut(s, n);
      PlainParts(s, n);
    }
  }

  lemma {:induction false} EscapeLonger(s: Bytes)
    ensures |Escape(s)| >= |s|
  {
    if s != [] {
      EscapeLonger(s[StepLen(s)..]);
      StepIdentity(s);
    }
  }

  lemma StepIdentity(s: Bytes)
    requires s != []
    ensures |StepText(s)| >= StepLen(s)
    ensures var n := StepLen(s);
            StepText(s) == s[..n] <==> RuneLen(s) > 0 && IsPlainText(s[..n])
  {
    if s[0] < RUNE_SELF { assert s[..1] == [s[0]]; }
  }
}
