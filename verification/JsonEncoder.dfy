/** The JSON encoder as it works in place: a buffer that every method appends to, a flag, and
    a counter. Each method is proved against the writes of EncoderOps and EncoderCalls. */
module JsonEncoder {
  import Sequences
  import opened Utf8
  import opened JsonString
  import opened EncoderOps
  import opened EncoderCalls
  import opened EncoderMeaning
  import opened EntryText

  class Buffer {
    var data: Bytes

    constructor ()
      ensures data == []
    {
      data := [];
    }

    method Append(p: Bytes)
      modifies this
      ensures data == old(data) + p
    {
      data := data + p;
    }
  }

  class JsonEncoder {
    var config: Option<Config>
    var buf: Buffer?
    var spaced: bool
    var openNamespaces: nat
    /** The calls made since the encoder was created, those made before it was cloned included. */
    ghost var calls: seq<Call>

    constructor ()
      ensures config == None && buf == null && !spaced && openNamespaces == 0 && calls == []
    {
      config, buf, spaced, openNamespaces, calls := None, null, false, 0, [];
    }

    /** The encoder is in use, and its buffer and counter are what its calls make of them. */
    ghost predicate Valid()
      reads this, buf
    {
      && config.Some? && buf != null
      && Wrote([], calls, spaced) == Some(buf.data)
      && openNamespaces == Spaces(calls)
    }

    // ---- strings -----------------------------------------------------------------------

    method TryAddRuneSelf(b: byte) returns (done: bool)
      requires buf != null
      modifies buf
      ensures done <==> b < RUNE_SELF
      ensures buf.data == if done then old(buf.data) + EscapeAscii(b) else old(buf.data)
    {
      if b >= RUNE_SELF { return false; }
      if 0x20 <= b && b != BACKSLASH && b != QUOTE {
        buf.Append([b]);
        return true;
      }
      if b == BACKSLASH || b == QUOTE {
        buf.Append([BACKSLASH]);
        buf.Append([b]);
      } else if b == 0x0A {
        buf.Append([BACKSLASH]);
        buf.Append([0x6E]);
      } else if b == 0x0D {
        buf.Append([BACKSLASH]);
        buf.Append([0x72]);
      } else if b == 0x09 {
        buf.Append([BACKSLASH]);
        buf.Append([0x74]);
      } else {
        buf.Append([BACKSLASH, 0x75, 0x30, 0x30]);
        buf.Append([HexDigit(b / 16)]);
        buf.Append([HexDigit(b % 16)]);
      }
      return true;
    }

    method TryAddRuneError(r: int, size: nat) returns (done: bool)
      requires buf != null
      modifies buf
      ensures done <==> r == RUNE_ERROR && size == 1
      ensures buf.data == if done then old(buf.data) + ESCAPED_ERROR else old(buf.data)
    {
      if r == RUNE_ERROR && size == 1 {
        buf.Append(ESCAPED_ERROR);
        return true;
      }
      return false;
    }

    method SafeAddString(s: Bytes)
      requires buf != null
      modifies buf
      ensures buf.data == old(buf.data) + Escape(s)
    {
      var i := 0;
      ghost var done: Bytes := [];
      EscapeStart(s);
      assert buf.data + [] == buf.data;
      while i < |s|
        invariant 0 <= i <= |s|
        invariant buf.data == old(buf.data) + done
        invariant Escaped(s, i, done) == Some(Escape(s))
      {
        ghost var next, text := EscapeTurn(s, i);
        Sequences.Assoc(old(buf.data), done, text);
        done := done + text;
        var self := TryAddRuneSelf(s[i]);
        if self {
          i := i + 1;
        } else {
          var r, size := DecodeRuneInString(s[i..]);
          var bad := TryAddRuneError(r, size);
          if bad {
            i := i + 1;
          } else {
            buf.Append(s[i..i + size]);
            i := i + size;
          }
        }
        assert i == next;
      }
      EscapeEnd(s, done);
    }

    /** The loop over a byte slice, which is memory that may change later, instead of a string:
        the bytes that come out are those of a string with the same contents. */
    method SafeAddByteString(s: array<byte>)
      requires buf != null
      modifies buf
      ensures buf.data == old(buf.data) + Escape(s[..])
    {
      var i := 0;
      ghost var text: Bytes := s[..];
      ghost var done: Bytes := [];
      EscapeStart(text);
      assert buf.data + [] == buf.data;
      while i < s.Length
        invariant 0 <= i <= s.Length && s[..] == text
        invariant buf.data == old(buf.data) + done
        invariant Escaped(text, i, done) == Some(Escape(text))
      {
        ghost var next, piece := EscapeTurn(text, i);
        assert Escaped(text, next, done + piece) == Escaped(text, i, done);
        Sequences.Assoc(old(buf.data), done, piece);
        done := done + piece;
        var self := TryAddRuneSelf(s[i]);
        if self {
          i := i + 1;
        } else {
          assert s[i..] == text[i..];
          var r, size := DecodeRuneInString(s[i..]);
          var bad := TryAddRuneError(r, size);
          if bad {
            i := i + 1;
          } else {
            assert s[i..i + size] == text[i..i + size];
            buf.Append(s[i..i + size]);
            i := i + size;
          }
        }
        assert i == next;
      }
      EscapeEnd(text, done);
    }

    // ---- separators, keys and primitives ---------------------------------------------------

    method AddElementSeparator()
      requires buf != null
      modifies buf
      ensures buf.data == Separate(old(buf.data), spaced)
      ensures var was := old(buf.data);
              buf.data == was + if was == [] || was[|was| - 1] in {0x7B, 0x5B, 0x3A, 0x2C, 0x20} then []
                                else if spaced then [COMMA, SPACE] else [COMMA]
    {
      if |buf.data| == 0 { return; }
      var last := buf.data[|buf.data| - 1];
      if last == 0x7B || last == 0x5B || last == 0x3A || last == 0x2C || last == 0x20 { return; }
      buf.Append([COMMA]);
      if spaced { buf.Append([SPACE]); }
    }

    method AddKey(key: Bytes)
      requires buf != null
      modifies buf
      ensures buf.data == Emit(old(buf.data), Key(key), spaced)
      ensures buf.data == Separate(old(buf.data), spaced)
                          + ([QUOTE] + Escape(key) + [QUOTE] + [COLON] + if spaced then [SPACE] else [])
    {
      AddElementSeparator();
      ghost var front := buf.data;
      buf.Append([QUOTE]);
      SafeAddString(key);
      buf.Append([QUOTE]);
      buf.Append([COLON]);
      if spaced { buf.Append([SPACE]); }
      Sequences.Assoc(front, Quoted(key) + [COLON], Gap(spaced));
      Sequences.Assoc(front, Quoted(key), [COLON]);
      QuotedBehind(front, key);
    }

    method AppendString(s: Bytes)
      requires buf != null
      modifies buf
      ensures buf.data == Emit(old(buf.data), Text(s), spaced)
    {
      AddElementSeparator();
      ghost var front := buf.data;
      buf.Append([QUOTE]);
      SafeAddString(s);
      buf.Append([QUOTE]);
      QuotedBehind(front, s);
    }

    method AppendByteString(s: array<byte>)
      requires buf != null
      modifies buf
      ensures buf.data == Emit(old(buf.data), Text(s[..]), spaced)
    {
      AddElementSeparator();
      ghost var front := buf.data;
      buf.Append([QUOTE]);
      SafeAddByteString(s);
      buf.Append([QUOTE]);
      QuotedBehind(front, s[..]);
    }

    /** AppendBool, AppendInt64, AppendUint64, finite floats, and the text of AppendReflected. */
    method AppendRaw(t: CompactJson)
      requires buf != null
      modifies buf
      ensures buf.data == Emit(old(buf.data), Raw(t), spaced)
    {
      AddElementSeparator();
      buf.Append(t);
    }

    method AppendPrim(p: Prim)
      requires buf != null
      modifies buf
      ensures buf.data == Emit(old(buf.data), PrimOp(p), spaced)
    {
      match p
      case PText(s) => AppendString(s);
      case PRaw(t) => AppendRaw(t);
    }

    /** What a callback appends. */
    method AppendPrims(prims: seq<Prim>)
      requires buf != null
      modifies buf
      ensures Some(buf.data) == Some(Exec(old(buf.data), PrimOps(prims), spaced))
    {
      ghost var goal := Some(Exec(buf.data, PrimOps(prims), spaced));
      var i := 0;
      assert prims[0..] == prims;
      while i < |prims|
        invariant 0 <= i <= |prims|
        invariant Some(Exec(buf.data, PrimOps(prims[i..]), spaced)) == goal
      {
        PrimTurn(buf.data, prims, i, spaced);
        AppendPrim(prims[i]);
        i := i + 1;
      }
    }

    /** AppendTime, AppendDuration and the callbacks of EncodeEntry: if the callback appended
        nothing, the fallback keeps the JSON valid. */
    method AppendStamp(prims: seq<Prim>, fallback: Prim)
      requires buf != null
      modifies buf
      ensures Some(buf.data) == Some(Exec(old(buf.data), PrimOps(Stamped(prims, fallback)), spaced))
    {
      StampEnds(buf.data, prims, fallback, spaced);
      var cur := |buf.data|;
      AppendPrims(prims);
      if cur == |buf.data| {
        AppendPrim(fallback);
      }
    }

    // ---- arrays, objects, fields ---------------------------------------------------------------

    method AppendElem(e: Elem)
      requires buf != null
      modifies buf, this`openNamespaces
      ensures buf.data == Exec(old(buf.data), ElemOps(e), spaced)
      ensures openNamespaces == old(openNamespaces) + ElemSpaces(e)
      decreases e, 1
    {
      ghost var before := buf.data;
      match e
      case Prim(p) =>
        AppendPrim(p);
        ExecOne(before, PrimOp(p), spaced);
      case Stamp(ps, fallback) =>
        AppendStamp(ps, fallback);
      case List(es) =>
        AppendArray(es);
      case Object(cs) =>
        AppendObject(cs);
      case Reflected(r) =>
        if r.Some? {
          AppendRaw(r.value);
          ExecOne(before, Raw(r.value), spaced);
        }
    }

    method AppendArray(es: seq<Elem>)
      requires buf != null
      modifies buf, this`openNamespaces
      ensures buf.data == Exec(old(buf.data), [OpenArray] + ListOps(es) + [CloseArray], spaced)
      ensures openNamespaces == old(openNamespaces) + ListSpaces(es)
      decreases es, 2
    {
      AddElementSeparator();
      buf.Append([0x5B]);
      MarshalLogArray(es);
      buf.Append([0x5D]);
      ExecBracketed(old(buf.data), OpenArray, ListOps(es), CloseArray, spaced);
    }

    method AppendObject(cs: seq<Call>)
      requires buf != null
      modifies buf, this`openNamespaces
      ensures buf.data == Exec(old(buf.data), [OpenObject] + CallOps(cs) + [CloseObject], spaced)
      ensures openNamespaces == old(openNamespaces) + Spaces(cs)
      decreases cs, 2
    {
      AddElementSeparator();
      buf.Append([0x7B]);
      AddFields(cs);
      buf.Append([0x7D]);
      ExecBracketed(old(buf.data), OpenObject, CallOps(cs), CloseObject, spaced);
    }

    /** The calls an array marshaller makes, in order. */
    method MarshalLogArray(es: seq<Elem>)
      requires buf != null
      modifies buf, this`openNamespaces
      ensures buf.data == Exec(old(buf.data), ListOps(es), spaced)
      ensures openNamespaces == old(openNamespaces) + ListSpaces(es)
      decreases es, 1
    {
      ghost var (goal, spaces) := (Exec(buf.data, ListOps(es), spaced), openNamespaces + ListSpaces(es));
      var i := 0;
      assert es[0..] == es;
      while i < |es|
        invariant 0 <= i <= |es|
        invariant Exec(buf.data, ListOps(es[i..]), spaced) == goal
        invariant openNamespaces + ListSpaces(es[i..]) == spaces
      {
        ListTurn(buf.data, es, i, spaced);
        AppendElem(es[i]);
        i := i + 1;
      }
    }

    /** The calls an object marshaller makes, or the fields of an entry, in order. */
    method AddFields(cs: seq<Call>)
      requires buf != null
      modifies buf, this`openNamespaces
      ensures Some(buf.data) == Some(WithCalls(old(buf.data), cs, spaced))
      ensures openNamespaces == old(openNamespaces) + Spaces(cs)
      decreases cs, 1
    {
      ghost var (goal, spaces) := (WithCalls(buf.data, cs, spaced), openNamespaces + Spaces(cs));
      var i := 0;
      assert cs[0..] == cs;
      while i < |cs|
        invariant 0 <= i <= |cs|
        invariant Some(WithCalls(buf.data, cs[i..], spaced)) == Some(goal)
        invariant openNamespaces + Spaces(cs[i..]) == spaces
      {
        CallTurn(buf.data, cs, i, spaced);
        AddCall(cs[i]);
        i := i + 1;
      }
      assert cs[|cs|..] == [];
    }

    /** One Add method, or OpenNamespace. A reflection that failed writes nothing, not even its key. */
    method AddCall(c: Call)
      requires buf != null
      modifies buf, this`openNamespaces
      ensures buf.data == Exec(old(buf.data), OneCallOps(c), spaced)
      ensures openNamespaces == old(openNamespaces) + CallSpaces(c)
      decreases c, 3
    {
      ghost var before := buf.data;
      match c
      case OpenNamespace(k) =>
        OpenNamespaceKey(k);
      case Add(k, e) =>
        if e.Reflected? && e.result.None? { return; }
        AddKey(k);
        AppendElem(e);
        ExecConcat(before, [Key(k)], ElemOps(e), spaced);
        ExecOne(before, Key(k), spaced);
    }

    /** AddTime and AddDuration; level, logger name and caller are added in the same way. */
    method AddStamp(key: Bytes, prims: seq<Prim>, fallback: Prim)
      requires buf != null
      modifies buf
      ensures Wrote(old(buf.data), [Add(key, Stamp(prims, fallback))], spaced) == Some(buf.data)
    {
      ghost var before := buf.data;
      AddKey(key);
      AppendStamp(prims, fallback);
      ExecConcat(before, [Key(key)], PrimOps(Stamped(prims, fallback)), spaced);
      ExecOne(before, Key(key), spaced);
      WroteOne(before, Add(key, Stamp(prims, fallback)), spaced);
    }

    /** AddString */
    method AddText(key: Bytes, s: Bytes)
      requires buf != null
      modifies buf
      ensures Wrote(old(buf.data), [Add(key, Prim(PText(s)))], spaced) == Some(buf.data)
    {
      ghost var before := buf.data;
      AddKey(key);
      AppendString(s);
      ExecConcat(before, [Key(key)], [Text(s)], spaced);
      ExecOne(before, Key(key), spaced);
      ExecOne(Emit(before, Key(key), spaced), Text(s), spaced);
      WroteOne(before, Add(key, Prim(PText(s))), spaced);
    }

    method OpenNamespaceKey(k: Bytes)
      requires buf != null
      modifies buf, this`openNamespaces
      ensures buf.data == Exec(old(buf.data), [Key(k), OpenObject], spaced)
      ensures openNamespaces == old(openNamespaces) + 1
    {
      ghost var before := buf.data;
      AddKey(k);
      KeyNeedsNoComma(before, k, spaced);
      ExecConcat(before, [Key(k)], [OpenObject], spaced);
      ExecOne(before, Key(k), spaced);
      ExecOne(buf.data, OpenObject, spaced);
      assert [Key(k)] + [OpenObject] == [Key(k), OpenObject];
      buf.Append([0x7B]);
      openNamespaces := openNamespaces + 1;
    }

    method CloseOpenNamespaces()
      requires buf != null
      modifies buf
      ensures Some(buf.data) == Some(WithClosers(old(buf.data), openNamespaces, spaced))
    {
      var i := 0;
      while i < openNamespaces
        invariant 0 <= i <= openNamespaces
        invariant buf.data == Exec(old(buf.data), Repeat(CloseObject, i), spaced)
      {
        ExecConcat(old(buf.data), Repeat(CloseObject, i), [CloseObject], spaced);
        ExecOne(buf.data, CloseObject, spaced);
        assert Repeat(CloseObject, i + 1) == Repeat(CloseObject, i) + [CloseObject];
        buf.Append([0x7D]);
        i := i + 1;
      }
    }

    /** A call on the encoder itself, recorded in its history. */
    method AddField(c: Call)
      requires Valid()
      modifies this`openNamespaces, this`calls, buf
      ensures Valid() && calls == old(calls) + [c]
    {
      ghost var before := buf.data;
      AddCall(c);
      WroteOne(before, c, spaced);
      WroteMore([], calls, before, [c], spaced);
      calls := calls + [c];
    }
  }

  /** The text that calls leave behind `b`, wrapped as the header of Sequences explains. */
  ghost function Wrote(b: Bytes, cs: seq<Call>, spaced: bool): Option<Bytes> { Some(WithCalls(b, cs, spaced)) }

  lemma WroteOne(b: Bytes, c: Call, spaced: bool)
    ensures Wrote(b, [c], spaced) == Some(Exec(b, OneCallOps(c), spaced)) && Spaces([c]) == CallSpaces(c)
  {
    assert [c][1..] == [] && OneCallOps(c) + [] == OneCallOps(c);
    assert CallOps([c]) == OneCallOps(c);
  }

  lemma WroteMore(b: Bytes, x: seq<Call>, b1: Bytes, y: seq<Call>, spaced: bool)
    requires Wrote(b, x, spaced) == Some(b1)
    ensures Wrote(b, x + y, spaced) == Wrote(b1, y, spaced) && Spaces(x + y) == Spaces(x) + Spaces(y)
  {
    CallOpsConcat(x, y);
    ExecConcat(b, CallOps(x), CallOps(y), spaced);
    assert Exec(b, CallOps(x + y), spaced) == Exec(b1, CallOps(y), spaced);
  }

  // ---- facts the methods use ---------------------------------------------------------------------

  /** utf8.DecodeRuneInString and utf8.DecodeRune. */
  method DecodeRuneInString(s: Bytes) returns (r: int, size: nat)
    requires s != []
    ensures r == RUNE_ERROR && size == 1 <==> RuneLen(s) == 0
    ensures size == if RuneLen(s) == 0 then 1 else RuneLen(s)
  {
    DecodeRuneExact(s);
    var decoded := DecodeRune(s);
    r, size := decoded.0, decoded.1;
  }

  /** What the loop will have appended in the end, `done` being appended for the first `i` bytes. */
  ghost function Escaped(s: Bytes, i: nat, done: Bytes): Option<Bytes>
    requires i <= |s|
  {
    Some(done + Escape(s[i..]))
  }

  lemma EscapeStart(s: Bytes)
    ensures Escaped(s, 0, []) == Some(Escape(s))
  {
    assert s[0..] == s && [] + Escape(s) == Escape(s);
  }

  lemma EscapeEnd(s: Bytes, done: Bytes)
    requires Escaped(s, |s|, done) == Some(Escape(s))
    ensures done == Escape(s)
  {
    assert s[|s|..] == [] && done + [] == done;
  }

  /** One turn of the escaping loop: what it appends, and where it goes on. */
  lemma EscapeTurn(s: Bytes, i: nat) returns (next: nat, text: Bytes)
    requires i < |s|
    ensures i < next <= |s|
    ensures forall done :: Escaped(s, next, done + text) == Escaped(s, i, done)
    ensures s[i] < RUNE_SELF ==> text == EscapeAscii(s[i]) && next == i + 1
    ensures s[i] >= RUNE_SELF && RuneLen(s[i..]) == 0 ==> text == ESCAPED_ERROR && next == i + 1
    ensures s[i] >= RUNE_SELF && RuneLen(s[i..]) > 0 ==> text == s[i..next] && next == i + RuneLen(s[i..])
  {
    next, text := i + StepLen(s[i..]), StepText(s[i..]);
    StepCases(s[i..]);
    Sequences.Slices(s, i, StepLen(s[i..]));
    forall done { EscapeNext(s, i, done); }
  }

  lemma EscapeNext(s: Bytes, i: nat, done: Bytes)
    requires i < |s|
    ensures Escaped(s, i + StepLen(s[i..]), done + StepText(s[i..])) == Escaped(s, i, done)
  {
    var (rest, n) := (s[i..], StepLen(s[i..]));
    EscapeUnfold(rest);
    Sequences.Slices(s, i, n);
    Sequences.Assoc(done, StepText(rest), Escape(rest[n..]));
  }

  lemma QuotedBehind(front: Bytes, s: Bytes)
    ensures front + [QUOTE] + Escape(s) + [QUOTE] == front + Quoted(s)
  {
    Sequences.Assoc(front, [QUOTE], Escape(s));
    Sequences.Assoc(front, [QUOTE] + Escape(s), [QUOTE]);
  }

  lemma PrimTurn(b: Bytes, prims: seq<Prim>, i: nat, spaced: bool)
    requires i < |prims|
    ensures Exec(b, PrimOps(prims[i..]), spaced)
            == Exec(Emit(b, PrimOp(prims[i]), spaced), PrimOps(prims[i + 1..]), spaced)
  {
    assert PrimOps(prims[i..])[1..] == PrimOps(prims[i + 1..]);
  }

  /** The length tells whether the callback appended anything. */
  lemma StampEnds(b: Bytes, prims: seq<Prim>, fallback: Prim, spaced: bool)
    ensures var after := Exec(b, PrimOps(prims), spaced);
            if |after| == |b| then
              after == b && Emit(b, PrimOp(fallback), spaced) == Exec(b, PrimOps(Stamped(prims, fallback)), spaced)
            else after == Exec(b, PrimOps(Stamped(prims, fallback)), spaced)
  {
    if prims == [] {
      ExecOne(b, PrimOp(fallback), spaced);
      assert PrimOps([fallback]) == [PrimOp(fallback)];
    } else {
      ExecLonger(b, PrimOps(prims), spaced);
    }
  }

  lemma ListTurn(b: Bytes, es: seq<Elem>, i: nat, spaced: bool)
    requires i < |es|
    ensures Exec(b, ListOps(es[i..]), spaced) == Exec(Exec(b, ElemOps(es[i]), spaced), ListOps(es[i + 1..]), spaced)
    ensures ListSpaces(es[i..]) == ElemSpaces(es[i]) + ListSpaces(es[i + 1..])
  {
    assert es[i..][1..] == es[i + 1..];
    ExecConcat(b, ElemOps(es[i]), ListOps(es[i + 1..]), spaced);
  }

  lemma CallTurn(b: Bytes, cs: seq<Call>, i: nat, spaced: bool)
    requires i < |cs|
    ensures Some(WithCalls(b, cs[i..], spaced))
         == Some(WithCalls(Exec(b, OneCallOps(cs[i]), spaced), cs[i + 1..], spaced))
    ensures Spaces(cs[i..]) == CallSpaces(cs[i]) + Spaces(cs[i + 1..])
  {
    assert cs[i..][1..] == cs[i + 1..];
    ExecConcat(b, OneCallOps(cs[i]), CallOps(cs[i + 1..]), spaced);
  }

  lemma ExecBracketed(b: Bytes, open: Op, ops: seq<Op>, close: Op, spaced: bool)
    ensures Exec(b, [open] + ops + [close], spaced) == Emit(Exec(Emit(b, open, spaced), ops, spaced), close, spaced)
  {
    ExecConcat(b, [open] + ops, [close], spaced);
    ExecConcat(b, [open], ops, spaced);
    ExecOne(b, open, spaced);
    ExecOne(Exec(Emit(b, open, spaced), ops, spaced), close, spaced);
  }

  lemma KeyNeedsNoComma(b: Bytes, k: Bytes, spaced: bool)
    ensures Separate(Emit(b, Key(k), spaced), spaced) == Emit(b, Key(k), spaced)
  {
    Sequences.Split(Quoted(k) + [COLON], Gap(spaced));
    Sequences.Split(Quoted(k), [COLON]);
    Sequences.Split(Separate(b, spaced), Piece(Key(k), spaced));
  }

  lemma ExecLonger(b: Bytes, ops: seq<Op>, spaced: bool)
    requires ops != []
    ensures |Exec(b, ops, spaced)| > |b|
  {
    ExecGrows(Emit(b, ops[0], spaced), ops[1..], spaced);
  }
}
