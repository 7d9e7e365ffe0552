/** The writes of the JSON encoder. The encoder keeps no context: it looks at the last byte
    of its buffer to decide whether a comma is due. This module proves that looking there is
    as good as tracking the whole context, whatever is written. */
module EncoderOps {
  import Sequences
  import opened Utf8
  import opened JsonString
  import opened JsonText

  const SPACE: byte := 0x20
  const COMMA: byte := 0x2C
  const COLON: byte := 0x3A

  /** The bytes after which addElementSeparator writes nothing. */
  predicate IsSeparator(b: byte) { b == 0x7B || b == 0x5B || b == COLON || b == COMMA || b == SPACE }

  predicate IsCompact(t: Bytes) {
    t != [] && Parse(t).Some? && !IsSeparator(t[|t| - 1]) && NEWLINE !in t
  }

  /** One complete JSON text without padding, as the formatting of numbers and booleans
      and the reflection-based marshaller deliver it. */
  type CompactJson = t: Bytes | IsCompact(t) witness [0x30]

  /** What one step of an encoder method appends. */
  datatype Op =
    | Key(name: Bytes)
    | Text(text: Bytes)
    | Raw(json: CompactJson)
    | OpenArray | CloseArray | OpenObject | CloseObject

  // ---- what is written ---------------------------------------------------------------

  predicate NeedsComma(b: Bytes) { b != [] && !IsSeparator(b[|b| - 1]) }

  function Gap(spaced: bool): Bytes { if spaced then [SPACE] else [] }

  /** addElementSeparator */
  function Separate(b: Bytes, spaced: bool): Bytes {
    if NeedsComma(b) then b + [COMMA] + Gap(spaced) else b
  }

  function Quoted(s: Bytes): Bytes { [QUOTE] + Escape(s) + [QUOTE] }

  /** The bytes of a write, the separator aside. */
  function Piece(op: Op, spaced: bool): (p: Bytes)
    ensures p != []
  {
    match op
    case Key(k) => Quoted(k) + [COLON] + Gap(spaced)
    case Text(s) => Quoted(s)
    case Raw(t) => t
    case OpenArray => [0x5B]
    case CloseArray => [0x5D]
    case OpenObject => [0x7B]
    case CloseObject => [0x7D]
  }

  predicate Closes(op: Op) { op.CloseArray? || op.CloseObject? }

  function Emit(b: Bytes, op: Op, spaced: bool): Bytes {
    (if Closes(op) then b else Separate(b, spaced)) + Piece(op, spaced)
  }

  function Exec(b: Bytes, ops: seq<Op>, spaced: bool): Bytes
    decreases ops
  {
    if ops == [] then b else Exec(Emit(b, ops[0], spaced), ops[1..], spaced)
  }

  lemma {:induction false} ExecConcat(b: Bytes, x: seq<Op>, y: seq<Op>, spaced: bool)
    ensures Exec(b, x + y, spaced) == Exec(Exec(b, x, spaced), y, spaced)
    decreases x
  {
    if x == [] {
      assert x + y == y;
    } else {
      assert (x + y)[1..] == x[1..] + y;
      ExecConcat(Emit(b, x[0], spaced), x[1..], y, spaced);
    }
  }

  lemma ExecOne(b: Bytes, op: Op, spaced: bool)
    ensures Exec(b, [op], spaced) == Emit(b, op, spaced)
  {
    assert [op][1..] == [];
  }

  // ---- splicing ------------------------------------------------------------------------

  /** Behind a nonempty buffer, writes do not look further back. */
  lemma {:induction false} ExecFrame(front: Bytes, b: Bytes, ops: seq<Op>, spaced: bool)
    requires b != []
    ensures Exec(front + b, ops, spaced) == front + Exec(b, ops, spaced)
    decreases ops
  {
    if ops != [] {
      EmitFrame(front, b, ops[0], spaced);
      ExecFrame(front, Emit(b, ops[0], spaced), ops[1..], spaced);
    }
  }

  lemma EmitFrame(front: Bytes, b: Bytes, op: Op, spaced: bool)
    requires b != []
    ensures Emit(front + b, op, spaced) == front + Emit(b, op, spaced) && Emit(b, op, spaced) != []
  {
    Sequences.Split(front, b);
    SeparateFrame(front, b, spaced);
    Sequences.Assoc(front, Separate(b, spaced), Piece(op, spaced));
    Sequences.Assoc(front, b, Piece(op, spaced));
  }

  lemma SeparateFrame(front: Bytes, b: Bytes, spaced: bool)
    requires b != []
    ensures Separate(front + b, spaced) == front + Separate(b, spaced)
  {
    Sequences.Split(front, b);
    Sequences.Assoc(front, b, [COMMA]);
    Sequences.Assoc(front, b + [COMMA], Gap(spaced));
  }

  lemma {:induction false} ExecGrows(b: Bytes, ops: seq<Op>, spaced: bool)
    ensures |Exec(b, ops, spaced)| >= |b| && (ops != [] ==> Exec(b, ops, spaced) != [])
    decreases ops
  {
    if ops != [] { ExecGrows(Emit(b, ops[0], spaced), ops[1..], spaced); }
  }

  /** Copying a printed fragment behind a separator, and only if it is not empty, gives what
      printing the same writes in place gives. */
  lemma ExecSplice(b: Bytes, ops: seq<Op>, spaced: bool)
    requires ops != [] ==> !Closes(ops[0])
    ensures var fragment := Exec([], ops, spaced);
            Exec(b, ops, spaced) == if fragment == [] then b else Separate(b, spaced) + fragment
  {
    ExecGrows([], ops, spaced);
    if ops != [] {
      var first := Piece(ops[0], spaced);
      assert Emit([], ops[0], spaced) == first;
      ExecFrame(Separate(b, spaced), first, ops[1..], spaced);
    }
  }

  // ---- the tracked context ---------------------------------------------------------------

  /** The states in which a writer that tracks its context puts a comma first. */
  predicate Due(s: State) { s.AfterItem? || s.AfterMember? || s.NeedColon? || s.Done? }

  function Ready(s: State): State { if Due(s) then Step(s, Comma) else s }

  function AfterOp(s: State, op: Op): State {
    match op
    case Key(k) => Step(Step(Ready(s), Str(Sanitize(k))), Colon)
    case Text(x) => Step(Ready(s), Str(Sanitize(x)))
    case Raw(t) => Run(Ready(s), Lex(t).value)
    case OpenArray => Step(Ready(s), LBracket)
    case OpenObject => Step(Ready(s), LBrace)
    case CloseArray => Step(s, RBracket)
    case CloseObject => Step(s, RBrace)
  }

  function AfterOps(s: State, ops: seq<Op>): State
    decreases ops
  {
    if ops == [] then s else AfterOps(AfterOp(s, ops[0]), ops[1..])
  }

  lemma {:induction false} AfterConcat(s: State, x: seq<Op>, y: seq<Op>)
    ensures AfterOps(s, x + y) == AfterOps(AfterOps(s, x), y)
    decreases x
  {
    if x == [] {
      assert x + y == y;
    } else {
      assert (x + y)[1..] == x[1..] + y;
      AfterConcat(AfterOp(s, x[0]), x[1..], y);
    }
  }

  lemma AfterOne(s: State, op: Op)
    ensures AfterOps(s, [op]) == AfterOp(s, op)
  {
    assert [op][1..] == [];
  }

  predicate Opener(t: Token) { t == LBrace || t == LBracket || t == Colon || t == Comma }

  predicate SameEnd(b: Bytes, ts: seq<Token>) {
    (b == [] <==> ts == []) && (b != [] ==> (IsSeparator(b[|b| - 1]) <==> Opener(ts[|ts| - 1])))
  }

  /** The buffer is the text read so far, and its last byte tells what its last token tells. */
  predicate Tracks(b: Bytes, s: State) {
    Lex(b).Some? && Run(Want(Top), Lex(b).value) == s && SameEnd(b, Lex(b).value)
  }

  lemma SameEndJoin(b: Bytes, x: seq<Token>, piece: Bytes, y: seq<Token>)
    requires SameEnd(b, x) && SameEnd(piece, y) && piece != []
    ensures SameEnd(b + piece, x + y)
  {
    Sequences.Split(b, piece);
    Sequences.Split(x, y);
  }

  lemma TracksPiece(b: Bytes, s: State, piece: Bytes, ts: seq<Token>)
    requires Tracks(b, s) && piece != [] && Lex(piece) == Some(ts) && SameEnd(piece, ts) && Seam(b, piece)
    ensures Tracks(b + piece, Run(s, ts))
  {
    var before := Lex(b).value;
    assert Lex(b + piece) == Some(before + ts) by { LexConcat(b, piece); }
    assert Run(Want(Top), before + ts) == Run(s, ts) by { RunConcat(Want(Top), before, ts); }
    SameEndJoin(b, before, piece, ts);
  }

  lemma DueByToken(s: State, t: Token)
    requires !Step(s, t).Fail?
    ensures Due(Step(s, t)) <==> !Opener(t)
  {
  }

  /** The last token tells whether a comma is due. */
  lemma DueByLastToken(ts: seq<Token>)
    requires !Run(Want(Top), ts).Fail?
    ensures Due(Run(Want(Top), ts)) <==> ts != [] && !Opener(ts[|ts| - 1])
  {
    if ts != [] {
      var (n, s) := (|ts| - 1, Run(Want(Top), ts[..|ts| - 1]));
      assert Run(Want(Top), ts) == Step(s, ts[n]) by {
        assert ts == ts[..n] + [ts[n]];
        RunConcat(Want(Top), ts[..n], [ts[n]]);
        RunOne(s, ts[n]);
      }
      DueByToken(s, ts[n]);
    }
  }

  lemma TracksSeparate(b: Bytes, s: State, spaced: bool)
    requires Tracks(b, s)
    ensures Tracks(Separate(b, spaced), Ready(s)) && !NeedsComma(Separate(b, spaced))
    ensures !s.Fail? ==> (NeedsComma(b) <==> Due(s))
  {
    if !s.Fail? { DueByLastToken(Lex(b).value); }
    if NeedsComma(b) {
      var comma := [COMMA] + Gap(spaced);
      LexGap(spaced);
      LexToken(COMMA, Gap(spaced));
      assert b + comma == Separate(b, spaced);
      assert [Structural(COMMA)] + [] == [Comma];
      TracksPiece(b, s, comma, [Comma]);
      RunOne(s, Comma);
    }
  }

  lemma LexGap(spaced: bool)
    ensures Lex(Gap(spaced)) == Some([])
  {
    assert [SPACE][1..] == [];
  }

  lemma LexToken(c: byte, y: Bytes)
    requires IsStructural(c) && Lex(y).Some?
    ensures Lex([c] + y) == Some([Structural(c)] + Lex(y).value)
  {
    assert ([c] + y)[1..] == y;
  }

  lemma LexString(x: Bytes, y: Bytes)
    requires Lex(y).Some?
    ensures Lex(Quoted(x) + y) == Some([Str(Sanitize(x))] + Lex(y).value)
  {
    EscapeRoundTrip(x, y);
    LexQuote(Escape(x) + [QUOTE] + y);
    Sequences.Assoc([QUOTE], Escape(x), [QUOTE]);
    Sequences.Assoc([QUOTE], Escape(x) + [QUOTE], y);
  }

  lemma LexQuote(u: Bytes)
    requires ReadString(u).StringRead? && Lex(ReadString(u).rest).Some?
    ensures Lex([QUOTE] + u) == Some([Str(ReadString(u).value)] + Lex(ReadString(u).rest).value)
  {
    assert ([QUOTE] + u)[1..] == u;
  }

  /** The tokens a write adds. */
  function PieceTokens(op: Op): seq<Token> {
    match op
    case Key(k) => [Str(Sanitize(k)), Colon]
    case Text(x) => [Str(Sanitize(x))]
    case Raw(t) => Lex(t).value
    case OpenArray => [LBracket]
    case CloseArray => [RBracket]
    case OpenObject => [LBrace]
    case CloseObject => [RBrace]
  }

  lemma KeyLexes(k: Bytes, spaced: bool)
    ensures Lex(Piece(Key(k), spaced)) == Some([Str(Sanitize(k)), Colon])
    ensures IsSeparator(Piece(Key(k), spaced)[|Piece(Key(k), spaced)| - 1])
  {
    var (p, colon) := (Piece(Key(k), spaced), [COLON] + Gap(spaced));
    LexGap(spaced);
    LexToken(COLON, Gap(spaced));
    assert p == Quoted(k) + colon && p[|p| - 1] == colon[|colon| - 1];
    LexString(k, colon);
    assert [Str(Sanitize(k))] + ([Colon] + []) == [Str(Sanitize(k)), Colon];
  }

  lemma PieceLexes(op: Op, spaced: bool)
    ensures Lex(Piece(op, spaced)) == Some(PieceTokens(op)) && SameEnd(Piece(op, spaced), PieceTokens(op))
  {
    var p := Piece(op, spaced);
    match op
    case Key(k) =>
      KeyLexes(k, spaced);
    case Text(x) =>
      LexString(x, []);
      assert p + [] == p && [Str(Sanitize(x))] + [] == PieceTokens(op);
    case Raw(t) =>
      RawLexes(t);
    case _ =>
      LexToken(p[0], []);
      assert [p[0]] + [] == p && [Structural(p[0])] + [] == PieceTokens(op);
  }

  lemma RawLexes(t: CompactJson)
    ensures Lex(t).Some? && SameEnd(t, Lex(t).value) && Lex(t).value == Tokens(Parse(t).value)
  {
    var ts := Lex(t).value;
    ReaderExact(ts, Parse(t).value);
    DueByLastToken(ts);
  }

  lemma RunPiece(s: State, op: Op)
    ensures Run(if Closes(op) then s else Ready(s), PieceTokens(op)) == AfterOp(s, op)
  {
    var ts := PieceTokens(op);
    if op.Key? {
      assert ts[1..] == [Colon];
      RunOne(Step(Ready(s), ts[0]), Colon);
    } else if !op.Raw? {
      RunOne(if Closes(op) then s else Ready(s), ts[0]);
    }
  }

  lemma TracksEmit(b: Bytes, s: State, op: Op, spaced: bool)
    requires Tracks(b, s)
    ensures Tracks(Emit(b, op, spaced), AfterOp(s, op))
  {
    PieceLexes(op, spaced);
    RunPiece(s, op);
    if Closes(op) {
      TracksPiece(b, s, Piece(op, spaced), PieceTokens(op));
    } else {
      TracksSeparate(b, s, spaced);
      SeparatedSeam(b, Piece(op, spaced), spaced);
      TracksPiece(Separate(b, spaced), Ready(s), Piece(op, spaced), PieceTokens(op));
    }
  }

  /** Behind a separator nothing runs together. */
  lemma SeparatedSeam(b: Bytes, piece: Bytes, spaced: bool)
    ensures Seam(Separate(b, spaced), piece)
  {
    var x := Separate(b, spaced);
    if NeedsComma(b) { assert x[|x| - 1] == if spaced then SPACE else COMMA; }
  }

  lemma {:induction false} TracksExec(b: Bytes, s: State, ops: seq<Op>, spaced: bool)
    requires Tracks(b, s)
    ensures Tracks(Exec(b, ops, spaced), AfterOps(s, ops))
    decreases ops
  {
    if ops != [] {
      TracksEmit(b, s, ops[0], spaced);
      TracksExec(Emit(b, ops[0], spaced), AfterOp(s, ops[0]), ops[1..], spaced);
    }
  }

  lemma TracksNothing()
    ensures Tracks([], Want(Top))
  {
  }

  /** Whatever is written, in whatever order, the buffer stays a sequence of JSON tokens, and
      it is a JSON text for `v` exactly when the tracked context has come to `v`. */
  lemma ParseExec(ops: seq<Op>, spaced: bool)
    ensures var end := AfterOps(Want(Top), ops);
            Parse(Exec([], ops, spaced)) == if end.Done? then Some(end.value) else None
  {
    TracksNothing();
    TracksExec([], Want(Top), ops, spaced);
  }

  // ---- the writer that tracks its context --------------------------------------------------

  /** The same writes, with the comma decided by the tracked state. */
  function TrackedExec(b: Bytes, s: State, ops: seq<Op>, spaced: bool): Bytes
    decreases ops
  {
    if ops == [] then b else
    var op := ops[0];
    var front := if !Closes(op) && Due(s) then b + [COMMA] + Gap(spaced) else b;
    TrackedExec(front + Piece(op, spaced), AfterOp(s, op), ops[1..], spaced)
  }

  lemma {:induction false} AfterFail(ops: seq<Op>)
    ensures AfterOps(Fail, ops) == Fail
  {
    if ops != [] {
      if ops[0].Raw? { RunFail(Lex(ops[0].json).value); }
      AfterFail(ops[1..]);
    }
  }

  /** The last-byte test writes the same bytes as the tracking writer, for every sequence of
      writes that a JSON text can start with. */
  lemma {:induction false} LastByteRefinesContext(b: Bytes, s: State, ops: seq<Op>, spaced: bool)
    requires Tracks(b, s) && !AfterOps(s, ops).Fail?
    ensures Exec(b, ops, spaced) == TrackedExec(b, s, ops, spaced)
    ensures var (end, last) := (AfterOps(s, ops), Exec(b, ops, spaced)); NeedsComma(last) <==> Due(end)
    decreases ops
  {
    if s.Fail? { AfterFail(ops); }
    TracksSeparate(b, s, spaced);
    if ops != [] {
      TracksEmit(b, s, ops[0], spaced);
      LastByteRefinesContext(Emit(b, ops[0], spaced), AfterOp(s, ops[0]), ops[1..], spaced);
    }
  }

  // ---- one line ------------------------------------------------------------------------------

  lemma {:induction false} ExecOneLine(b: Bytes, ops: seq<Op>, spaced: bool)
    requires NEWLINE !in b
    ensures NEWLINE !in Exec(b, ops, spaced)
    decreases ops
  {
    if ops != [] {
      PieceOneLine(ops[0], spaced);
      ExecOneLine(Emit(b, ops[0], spaced), ops[1..], spaced);
    }
  }

  lemma QuotedOneLine(x: Bytes)
    ensures NEWLINE !in Quoted(x)
  {
    assert NEWLINE !in Escape(x) by { EscapeClean(x); }
  }

  lemma PieceOneLine(op: Op, spaced: bool)
    ensures NEWLINE !in Piece(op, spaced)
  {
    match op
    case Key(k) => QuotedOneLine(k);
    case Text(x) => QuotedOneLine(x);
    case _ =>
  }
}
