/** Byte strings, and UTF-8 as section 4 of RFC 3629 defines it. */
module Utf8 {
  type byte = x: int | 0 <= x < 256
  type Bytes = seq<byte>

  datatype Option<+T> = None | Some(value: T)

  function AsList<T>(x: Option<T>): seq<T> { if x.Some? then [x.value] else [] }

  /** utf8.RuneSelf: bytes below it stand for themselves. */
  const RUNE_SELF := 0x80
  /** utf8.RuneError, U+FFFD, and its three-byte form. */
  const RUNE_ERROR := 0xFFFD
  const REPLACEMENT: Bytes := [0xEF, 0xBF, 0xBD]

  predicate Tail(b: byte) { 0x80 <= b <= 0xBF }

  /** The first two bytes of a UTF8-3 sequence. */
  predicate Lead3(a: byte, b: byte) {
    || (a == 0xE0 && 0xA0 <= b <= 0xBF)
    || (0xE1 <= a <= 0xEC && Tail(b))
    || (a == 0xED && 0x80 <= b <= 0x9F)
    || (0xEE <= a <= 0xEF && Tail(b))
  }

  /** The first two bytes of a UTF8-4 sequence. */
  predicate Lead4(a: byte, b: byte) {
    || (a == 0xF0 && 0x90 <= b <= 0xBF)
    || (0xF1 <= a <= 0xF3 && Tail(b))
    || (a == 0xF4 && 0x80 <= b <= 0x8F)
  }

  /** Length of the UTF8-char that `s` starts with; 0 when it starts with none. */
  function RuneLen(s: Bytes): (n: nat)
    ensures n <= 4 && n <= |s|
  {
    if |s| >= 1 && s[0] < RUNE_SELF then 1
    else if |s| >= 2 && 0xC2 <= s[0] <= 0xDF && Tail(s[1]) then 2
    else if |s| >= 3 && Lead3(s[0], s[1]) && Tail(s[2]) then 3
    else if |s| >= 4 && Lead4(s[0], s[1]) && Tail(s[2]) && Tail(s[3]) then 4
    else 0
  }

  /** utf8.DecodeRune and utf8.DecodeRuneInString: the code point and its width;
      a byte that starts no character gives (RuneError, 1). */
  function DecodeRune(s: Bytes): (int, nat) {
    if s == [] then (RUNE_ERROR, 0) else
    match RuneLen(s)
    case 0 => (RUNE_ERROR, 1)
    case 1 => (s[0], 1)
    case 2 => (Push(s[0] - 0xC0, s[1]), 2)
    case 3 => (Push(Push(s[0] - 0xE0, s[1]), s[2]), 3)
    case _ => (Push(Push(Push(s[0] - 0xF0, s[1]), s[2]), s[3]), 4)
  }

  /** Six more payload bits. */
  function Push(high: int, tail: byte): int { high * 64 + (tail - 0x80) }

  /** The UTF-8 form of a code point (section 3 of RFC 3629). */
  function EncodeRune(cp: nat): Bytes
    requires cp < 0x110000
  {
    if cp < 0x80 then [cp]
    else if cp < 0x800 then [0xC0 + cp / 64, 0x80 + cp % 64]
    else if cp < 0x10000 then [0xE0 + cp / 64 / 64, 0x80 + cp / 64 % 64, 0x80 + cp % 64]
    else [0xF0 + cp / 64 / 64 / 64, 0x80 + cp / 64 / 64 % 64, 0x80 + cp / 64 % 64, 0x80 + cp % 64]
  }

  /** Decoding is exact: a character's code point, encoded again, is the bytes it came from,
      and the error result with width 1 means that no character starts here. */
  lemma DecodeRuneExact(s: Bytes)
    requires s != []
    ensures RuneLen(s) == 0 <==> DecodeRune(s) == (RUNE_ERROR, 1)
    ensures RuneLen(s) > 0 ==>
              && 0 <= DecodeRune(s).0 < 0x110000
              && DecodeRune(s).1 == RuneLen(s)
              && EncodeRune(DecodeRune(s).0) == s[..RuneLen(s)]
  {
    match RuneLen(s)
    case 2 => Decode2(s[0], s[1]);
    case 3 => Decode3(s[0], s[1], s[2]);
    case 4 => Decode4(s[0], s[1], s[2], s[3]);
    case _ =>
  }

  lemma Decode2(a: byte, b: byte)
    requires 0xC2 <= a <= 0xDF && Tail(b)
    ensures 0x80 <= Push(a - 0xC0, b) < 0x800 && EncodeRune(Push(a - 0xC0, b)) == [a, b]
  {
    PushSplits(a - 0xC0, b);
  }

  lemma Decode3(a: byte, b: byte, c: byte)
    requires Lead3(a, b) && Tail(c)
    ensures 0x800 <= Push(Push(a - 0xE0, b), c) < 0x10000
    ensures EncodeRune(Push(Push(a - 0xE0, b), c)) == [a, b, c]
  {
    PushSplits(a - 0xE0, b);
    PushSplits(Push(a - 0xE0, b), c);
  }

  lemma Decode4(a: byte, b: byte, c: byte, d: byte)
    requires Lead4(a, b) && Tail(c) && Tail(d)
    ensures 0x10000 <= Push(Push(Push(a - 0xF0, b), c), d) < 0x110000
    ensures EncodeRune(Push(Push(Push(a - 0xF0, b), c), d)) == [a, b, c, d]
  {
    var two := Push(a - 0xF0, b);
    var three := Push(two, c);
    PushSplits(a - 0xF0, b);
    PushSplits(two, c);
    PushSplits(three, d);
    var cp := Push(three, d);
    assert cp / 64 == three && three / 64 == two && two / 64 == a - 0xF0;
  }

  lemma PushSplits(high: int, tail: byte)
    requires high >= 0 && Tail(tail)
    ensures Push(high, tail) / 64 == high && Push(high, tail) % 64 == tail - 0x80
  {
  }

  // ---- characters are the forms of the scalar values ------------------------------------------------

  /** The code points that UTF-8 has a form for: all but the surrogates. */
  predicate IsScalar(cp: int) { 0 <= cp < 0x110000 && !(0xD800 <= cp < 0xE000) }

  /** Every scalar value is read back from its form, whatever follows. */
  lemma ScalarAccepted(cp: nat, y: Bytes)
    requires IsScalar(cp)
    ensures var form := EncodeRune(cp);
            && RuneLen(form + y) == |form| > 0 && DecodeRune(form + y) == (cp, |form|)
            && (form + y)[..|form|] == form && (form + y)[|form|..] == y
  {
    if cp >= 0x10000 {
      Four(cp);
    } else if cp >= 0x800 {
      Three(cp);
    } else if cp >= 0x80 {
      PushJoins(cp);
    }
  }

  lemma PushJoins(cp: nat)
    ensures Push(cp / 64, 0x80 + cp % 64) == cp
  {
  }

  lemma Three(cp: nat)
    requires 0x800 <= cp < 0x10000 && IsScalar(cp)
    ensures var f := EncodeRune(cp); |f| == 3 && Lead3(f[0], f[1]) && Tail(f[2])
    ensures var f := EncodeRune(cp); Push(Push(f[0] - 0xE0, f[1]), f[2]) == cp
  {
    PushJoins(cp);
    PushJoins(cp / 64);
  }

  lemma Four(cp: nat)
    requires 0x10000 <= cp < 0x110000
    ensures var f := EncodeRune(cp); |f| == 4 && Lead4(f[0], f[1]) && Tail(f[2]) && Tail(f[3])
    ensures var f := EncodeRune(cp); Push(Push(Push(f[0] - 0xF0, f[1]), f[2]), f[3]) == cp
  {
    PushJoins(cp);
    PushJoins(cp / 64);
    PushJoins(cp / 64 / 64);
  }

  /** And nothing else is a character: what is read is the form of a scalar value. */
  lemma ScalarDecoded(s: Bytes)
    requires RuneLen(s) > 0
    ensures IsScalar(DecodeRune(s).0) && EncodeRune(DecodeRune(s).0) == s[..RuneLen(s)]
  {
    DecodeRuneExact(s);
    if RuneLen(s) == 3 { Decode3(s[0], s[1], s[2]); }
  }

  /** `s` starts with the form of `cp`. */
  predicate StartsWith(s: Bytes, cp: int) { IsScalar(cp) && EncodeRune(cp) <= s }

  /** A character starts `s` exactly when the form of a scalar value does, and that is the one. */
  lemma CharacterExact(s: Bytes)
    ensures RuneLen(s) > 0 <==> exists cp :: StartsWith(s, cp)
    ensures forall cp :: StartsWith(s, cp) ==> RuneLen(s) == |EncodeRune(cp)| && DecodeRune(s) == (cp, RuneLen(s))
  {
    if RuneLen(s) > 0 {
      ScalarDecoded(s);
      assert StartsWith(s, DecodeRune(s).0);
    }
    forall cp | StartsWith(s, cp) ensures RuneLen(s) == |EncodeRune(cp)| && DecodeRune(s) == (cp, RuneLen(s)) {
      var form := EncodeRune(cp);
      ScalarAccepted(cp, s[|form|..]);
      assert s == form + s[|form|..];
    }
  }

  predicate AllScalar(cps: seq<nat>) { forall k | 0 <= k < |cps| :: IsScalar(cps[k]) }

  /** The forms of several code points. */
  function EncodeRunes(cps: seq<nat>): Bytes
    requires AllScalar(cps)
  {
    if cps == [] then [] else EncodeRune(cps[0]) + EncodeRunes(cps[1..])
  }

  /** Whether `s` is a sequence of UTF8-chars. */
  predicate Valid(s: Bytes) {
    s == [] || (RuneLen(s) > 0 && Valid(s[RuneLen(s)..]))
  }

  /** Valid byte strings are exactly the forms of sequences of scalar values. */
  lemma {:induction false} RunesValid(cps: seq<nat>)
    requires AllScalar(cps)
    ensures Valid(EncodeRunes(cps))
  {
    if cps != [] {
      RunesValid(cps[1..]);
      ScalarAccepted(cps[0], EncodeRunes(cps[1..]));
    }
  }

  function Runes(s: Bytes): (cps: seq<nat>)
    requires Valid(s)
    ensures AllScalar(cps) && EncodeRunes(cps) == s
  {
    if s == [] then [] else
    ScalarDecoded(s);
    var rest := Runes(s[RuneLen(s)..]);
    var cps := [DecodeRune(s).0] + rest;
    assert cps[1..] == rest && s == s[..RuneLen(s)] + s[RuneLen(s)..];
    cps
  }

  lemma ValidExact(s: Bytes)
    ensures Valid(s) <==> exists cps: seq<nat> :: AllScalar(cps) && EncodeRunes(cps) == s
  {
    if Valid(s) { assert EncodeRunes(Runes(s)) == s; }
    if cps: seq<nat> :| AllScalar(cps) && EncodeRunes(cps) == s { RunesValid(cps); }
  }

  /** `s` with each byte that starts no character replaced by U+FFFD. */
  function Sanitize(s: Bytes): Bytes {
    if s == [] then []
    else if RuneLen(s) == 0 then REPLACEMENT + Sanitize(s[1..])
    else s[..RuneLen(s)] + Sanitize(s[RuneLen(s)..])
  }

  /** By code points: the form of a scalar value stays, and a byte where none starts becomes the
      form of U+FFFD. */
  lemma SanitizeExact(s: Bytes)
    requires s != []
    ensures forall cp :: StartsWith(s, cp) ==> Sanitize(s) == EncodeRune(cp) + Sanitize(s[|EncodeRune(cp)|..])
    ensures (forall cp :: !StartsWith(s, cp)) ==> Sanitize(s) == EncodeRune(RUNE_ERROR) + Sanitize(s[1..])
  {
    CharacterExact(s);
    forall cp | StartsWith(s, cp) ensures Sanitize(s) == EncodeRune(cp) + Sanitize(s[|EncodeRune(cp)|..]) {
      assert s[..RuneLen(s)] == EncodeRune(cp);
    }
    assert EncodeRune(RUNE_ERROR) == REPLACEMENT;
  }

  /** What follows a character does not change how it is read. */
  lemma RuneLenPrefix(x: Bytes, y: Bytes)
    requires RuneLen(x) > 0
    ensures RuneLen(x + y) == RuneLen(x)
    ensures (x + y)[..RuneLen(x)] == x[..RuneLen(x)]
    ensures (x + y)[RuneLen(x)..] == x[RuneLen(x)..] + y
  {
  }

  /** A character read alone is still that character. */
  lemma RuneLenAlone(s: Bytes)
    requires RuneLen(s) > 0
    ensures RuneLen(s[..RuneLen(s)]) == RuneLen(s)
  {
  }

  lemma {:induction false} ValidConcat(x: Bytes, y: Bytes)
    requires Valid(x) && Valid(y)
    ensures Valid(x + y)
  {
    if x == [] {
      assert x + y == y;
    } else {
      RuneLenPrefix(x, y);
      ValidConcat(x[RuneLen(x)..], y);
    }
  }

  lemma ValidRune(s: Bytes)
    requires RuneLen(s) == |s| > 0
    ensures Valid(s)
  {
    assert s[|s|..] == [];
  }

  /** Replacing makes any byte string valid. */
  lemma {:induction false} SanitizeIsValid(s: Bytes)
    ensures Valid(Sanitize(s))
  {
    if s != [] {
      var n := RuneLen(s);
      if n == 0 {
        SanitizeIsValid(s[1..]);
        ValidRune(REPLACEMENT);
        ValidConcat(REPLACEMENT, Sanitize(s[1..]));
      } else {
        SanitizeIsValid(s[n..]);
        RuneLenAlone(s);
        ValidRune(s[..n]);
        ValidConcat(s[..n], Sanitize(s[n..]));
      }
    }
  }

  /** Replacing leaves a byte string alone exactly when it is valid. */
  lemma {:induction false} SanitizeValid(s: Bytes)
    ensures Valid(s) <==> Sanitize(s) == s
  {
    if Sanitize(s) == s { SanitizeIsValid(s); }
    if Valid(s) && s != [] {
      var n := RuneLen(s);
      SanitizeValid(s[n..]);
      assert s == s[..n] + s[n..];
    }
  }

  /** An ASCII suffix never merges with what stands before it. */
  lemma {:induction false} SanitizeSuffix(x: Bytes, y: Bytes)
    requires Ascii(y)
    ensures Sanitize(x + y) == Sanitize(x) + y
  {
    var xy := x + y;
    if x == [] {
      assert xy == y;
      AsciiValid(y);
      SanitizeValid(y);
    } else if RuneLen(x) == 0 {
      assert xy[1..] == x[1..] + y && RuneLen(xy) == 0;
      SanitizeSuffix(x[1..], y);
      assert REPLACEMENT + (Sanitize(x[1..]) + y) == REPLACEMENT + Sanitize(x[1..]) + y;
    } else {
      var n := RuneLen(x);
      RuneLenPrefix(x, y);
      SanitizeSuffix(x[n..], y);
      assert x[..n] + (Sanitize(x[n..]) + y) == x[..n] + Sanitize(x[n..]) + y;
    }
  }

  predicate Ascii(s: Bytes) {
    forall i | 0 <= i < |s| :: s[i] < RUNE_SELF
  }

  lemma {:induction false} AsciiValid(s: Bytes)
    requires Ascii(s)
    ensures Valid(s)
  {
    if s != [] { AsciiValid(s[1..]); }
  }
}
