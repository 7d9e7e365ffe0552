/** JSON texts as RFC 8259 defines them: a lexer from bytes to tokens, the token sequence
    that the grammar gives to each value, and a pushdown reader proved to accept exactly
    those sequences. */
module JsonText {
  import Sequences
  import opened Utf8
  import opened JsonString

  /** Object members keep their order, and duplicate names are kept. */
  datatype Member = Member(name: Bytes, value: Json)
  datatype Json =
    | JString(text: Bytes)
    | JLiteral(literal: Bytes)
    | JArray(items: seq<Json>)
    | JObject(members: seq<Member>)

  datatype Token = LBrace | RBrace | LBracket | RBracket | Colon | Comma | Str(value: Bytes) | Lit(text: Bytes)

  // ---- bytes to tokens ---------------------------------------------------------------

  predicate IsWhitespace(b: byte) { b == 0x20 || b == 0x09 || b == 0x0A || b == 0x0D }

  predicate IsStructural(b: byte) { b == 0x7B || b == 0x7D || b == 0x5B || b == 0x5D || b == 0x3A || b == 0x2C }

  function Structural(b: byte): Token
    requires IsStructural(b)
  {
    if b == 0x7B then LBrace else if b == 0x7D then RBrace
    else if b == 0x5B then LBracket else if b == 0x5D then RBracket
    else if b == 0x3A then Colon else Comma
  }

  /** A byte that can stand inside an unquoted token. */
  predicate IsPlain(b: byte) { !IsWhitespace(b) && !IsStructural(b) && b != QUOTE }

  function PlainRun(s: Bytes): (n: nat)
    ensures n <= |s| && forall i | 0 <= i < n :: IsPlain(s[i])
    ensures n < |s| ==> !IsPlain(s[n])
  {
    if s == [] || !IsPlain(s[0]) then 0 else 1 + PlainRun(s[1..])
  }

  function DigitRun(s: Bytes): (n: nat)
    ensures n <= |s| && forall i | 0 <= i < n :: 0x30 <= s[i] <= 0x39
  {
    if s == [] || !(0x30 <= s[0] <= 0x39) then 0 else 1 + DigitRun(s[1..])
  }

  predicate IsExponent(s: Bytes) {
    s == [] ||
    (|s| >= 2 && (s[0] == 0x65 || s[0] == 0x45) &&
     var digits := if s[1] == 0x2B || s[1] == 0x2D then s[2..] else s[1..];
     digits != [] && DigitRun(digits) == |digits|)
  }

  predicate IsFraction(s: Bytes) {
    if s != [] && s[0] == 0x2E then
      var n := DigitRun(s[1..]);
      n > 0 && IsExponent(s[1 + n..])
    else IsExponent(s)
  }

  /** Section 6: optional minus, integer without leading zeros, fraction, exponent. */
  predicate IsNumber(s: Bytes) {
    var digits := if s != [] && s[0] == 0x2D then s[1..] else s;
    var n := DigitRun(digits);
    n > 0 && (n == 1 || digits[0] != 0x30) && IsFraction(digits[n..])
  }

  const TRUE: Bytes := [0x74, 0x72, 0x75, 0x65]
  const FALSE: Bytes := [0x66, 0x61, 0x6C, 0x73, 0x65]
  const NULL: Bytes := [0x6E, 0x75, 0x6C, 0x6C]

  predicate IsLiteral(s: Bytes) { s == TRUE || s == FALSE || s == NULL || IsNumber(s) }

  /** What a nonempty text starts with: whitespace, a token, or neither. */
  datatype Lexeme = BadLexeme | Space(rest: Bytes) | Lexeme(token: Token, rest: Bytes)

  function NextLexeme(s: Bytes): (r: Lexeme)
    requires s != []
    ensures !r.BadLexeme? ==> |r.rest| < |s|
  {
    if IsWhitespace(s[0]) then Space(s[1..])
    else if IsStructural(s[0]) then Lexeme(Structural(s[0]), s[1..])
    else if s[0] == QUOTE then
      var r := ReadString(s[1..]);
      if r.BadString? then BadLexeme else Lexeme(Str(r.value), r.rest)
    else UnquotedLexeme(s)
  }

  function UnquotedLexeme(s: Bytes): (r: Lexeme)
    requires s != [] && IsPlain(s[0])
    ensures !r.BadLexeme? ==> |r.rest| < |s|
  {
    var n := PlainRun(s);
    if IsLiteral(s[..n]) then Lexeme(Lit(s[..n]), s[n..]) else BadLexeme
  }

  /** The tokens of a text, whitespace between them dropped. */
  function Lex(s: Bytes): Option<seq<Token>>
    decreases |s|
  {
    if s == [] then Some([]) else
    match NextLexeme(s)
    case BadLexeme => None
    case Space(rest) => Lex(rest)
    case Lexeme(t, rest) =>
      var ts := Lex(rest);
      if ts.None? then None else Some([t] + ts.value)
  }

  /** Two texts can be joined when no unquoted token runs across the seam. */
  predicate Seam(x: Bytes, y: Bytes) {
    x == [] || y == [] || !IsPlain(x[|x| - 1]) || !IsPlain(y[0])
  }

  lemma {:induction false} PlainRunSeam(x: Bytes, y: Bytes)
    requires x != [] && Seam(x, y)
    ensures PlainRun(x + y) == PlainRun(x)
  {
    if IsPlain(x[0]) {
      if |x| == 1 {
        assert (x + y)[1..] == y;
      } else {
        assert (x + y)[1..] == x[1..] + y;
        PlainRunSeam(x[1..], y);
      }
    }
  }

  /** Joining at a seam leaves the first lexeme alone, and the seam stays where it was. */
  lemma NextLexemeSeam(x: Bytes, y: Bytes)
    requires x != [] && Seam(x, y) && !NextLexeme(x).BadLexeme?
    ensures var r := NextLexeme(x); NextLexeme(x + y) == r.(rest := r.rest + y) && Seam(r.rest, y)
  {
    var xy := x + y;
    if IsPlain(x[0]) {
      UnquotedSeam(x, y);
    } else {
      assert xy[1..] == x[1..] + y;
      if x[0] == QUOTE {
        ReadStringPrefix(x[1..], y);
        ReadStringSuffix(x[1..]);
      }
    }
  }

  lemma UnquotedSeam(x: Bytes, y: Bytes)
    requires x != [] && Seam(x, y) && IsPlain(x[0]) && UnquotedLexeme(x).Lexeme?
    ensures var r := UnquotedLexeme(x); UnquotedLexeme(x + y) == r.(rest := r.rest + y) && Seam(r.rest, y)
  {
    var n, xy := PlainRun(x), x + y;
    PlainRunSeam(x, y);
    SplitFront(x, y, n);
  }

  lemma SplitFront(x: Bytes, y: Bytes, n: nat)
    requires n <= |x|
    ensures (x + y)[..n] == x[..n] && (x + y)[n..] == x[n..] + y
  {
  }

  /** Joining texts at a seam joins their tokens. */
  lemma {:induction false} LexConcat(x: Bytes, y: Bytes)
    requires Lex(x).Some? && Lex(y).Some? && Seam(x, y)
    ensures Lex(x + y) == Some(Lex(x).value + Lex(y).value)
    decreases |x|
  {
    if x == [] {
      assert x + y == y && [] + Lex(y).value == Lex(y).value;
    } else {
      var r := NextLexeme(x);
      var rest, xy := r.rest, x + y;
      NextLexemeSeam(x, y);
      LexConcat(rest, y);
      assert NextLexeme(xy) == r.(rest := rest + y);
      if r.Lexeme? {
        var (ts, us) := (Lex(rest).value, Lex(y).value);
        assert Lex(xy) == Some([r.token] + (ts + us));
        assert [r.token] + (ts + us) == ([r.token] + ts) + us;
      } else {
        assert Lex(xy) == Lex(rest + y);
      }
    }
  }

  /** What is left after a string is a suffix of the text. */
  lemma {:induction false} ReadStringSuffix(s: Bytes)
    requires ReadString(s).StringRead?
    ensures var rest := ReadString(s).rest; rest == s[|s| - |rest|..]
  {
    if s[0] != QUOTE { ReadStringSuffix(s[ReadChar(s).1..]); }
  }

  // ---- values to tokens: the grammar of sections 2 to 5 ------------------------------

  function Tokens(v: Json): seq<Token>
    decreases v, 0
  {
    match v
    case JString(s) => [Str(s)]
    case JLiteral(t) => [Lit(t)]
    case JArray(items) => [LBracket] + ItemTokens(items) + [RBracket]
    case JObject(members) => [LBrace] + MemberTokens(members) + [RBrace]
  }

  function ItemTokens(items: seq<Json>): seq<Token>
    decreases items, 1
  {
    if items == [] then [] else
    var n := |items| - 1;
    (if n == 0 then [] else ItemTokens(items[..n]) + [Comma]) + Tokens(items[n])
  }

  function MemberTokens(members: seq<Member>): seq<Token>
    decreases members, 1
  {
    if members == [] then [] else
    var n := |members| - 1;
    (if n == 0 then [] else MemberTokens(members[..n]) + [Comma])
    + ([Str(members[n].name), Colon] + Tokens(members[n].value))
  }

  /** The items, and the members, in front of another one. */
  function ItemLead(items: seq<Json>): seq<Token> { if items == [] then [] else ItemTokens(items) + [Comma] }
  function MemberLead(members: seq<Member>): seq<Token> {
    if members == [] then [] else MemberTokens(members) + [Comma]
  }

  lemma TokensSnoc(items: seq<Json>, members: seq<Member>, name: Bytes, v: Json)
    ensures ItemTokens(items + [v]) == ItemLead(items) + Tokens(v)
    ensures MemberTokens(members + [Member(name, v)]) == MemberLead(members) + ([Str(name), Colon] + Tokens(v))
  {
    assert (items + [v])[..|items|] == items;
    assert (members + [Member(name, v)])[..|members|] == members;
  }

  // ---- tokens to values: a pushdown reader ---------------------------------------------

  /** The unfinished arrays and objects around the value that is due next. */
  datatype Context =
    | Top
    | InArray(items: seq<Json>, up: Context)
    | InObject(members: seq<Member>, name: Bytes, up: Context)

  datatype State =
    | Fail
    | Want(at: Context)
    | FirstItem(up: Context)
    | AfterItem(items: seq<Json>, up: Context)
    | FirstName(up: Context)
    | NextName(members: seq<Member>, up: Context)
    | NeedColon(members: seq<Member>, name: Bytes, up: Context)
    | AfterMember(members: seq<Member>, up: Context)
    | Done(value: Json)

  /** The state after a complete value in context `c`. */
  function Plug(c: Context, v: Json): State {
    match c
    case Top => Done(v)
    case InArray(items, up) => AfterItem(items + [v], up)
    case InObject(members, name, up) => AfterMember(members + [Member(name, v)], up)
  }

  function StartValue(c: Context, t: Token): State {
    match t
    case Str(s) => Plug(c, JString(s))
    case Lit(x) => Plug(c, JLiteral(x))
    case LBracket => FirstItem(c)
    case LBrace => FirstName(c)
    case _ => Fail
  }

  function Step(s: State, t: Token): State {
    match s
    case Fail => Fail
    case Done(_) => Fail
    case Want(c) => StartValue(c, t)
    case FirstItem(up) => if t == RBracket then Plug(up, JArray([])) else StartValue(InArray([], up), t)
    case AfterItem(items, up) =>
      if t == RBracket then Plug(up, JArray(items)) else if t == Comma then Want(InArray(items, up)) else Fail
    case FirstName(up) =>
      if t == RBrace then Plug(up, JObject([])) else if t.Str? then NeedColon([], t.value, up) else Fail
    case NextName(members, up) => if t.Str? then NeedColon(members, t.value, up) else Fail
    case NeedColon(members, name, up) => if t == Colon then Want(InObject(members, name, up)) else Fail
    case AfterMember(members, up) =>
      if t == RBrace then Plug(up, JObject(members)) else if t == Comma then NextName(members, up) else Fail
  }

  function Run(s: State, ts: seq<Token>): State
    decreases ts
  {
    if ts == [] then s else Run(Step(s, ts[0]), ts[1..])
  }

  lemma {:induction false} RunConcat(s: State, x: seq<Token>, y: seq<Token>)
    ensures Run(s, x + y) == Run(Run(s, x), y)
    decreases x
  {
    if x == [] {
      assert x + y == y;
    } else {
      assert (x + y)[1..] == x[1..] + y;
      RunConcat(Step(s, x[0]), x[1..], y);
    }
  }

  lemma RunOne(s: State, t: Token)
    ensures Run(s, [t]) == Step(s, t)
  {
    assert [t][1..] == [];
  }

  lemma {:induction false} RunFail(ts: seq<Token>)
    ensures Run(Fail, ts) == Fail
  {
    if ts != [] { RunFail(ts[1..]); }
  }

  /** The tokens read so far when a value is due in context `c`, and in a given state. */
  function Before(c: Context): seq<Token> {
    match c
    case Top => []
    case InArray(items, up) => Before(up) + ([LBracket] + ItemLead(items))
    case InObject(members, name, up) => Before(up) + ([LBrace] + MemberLead(members)) + [Str(name), Colon]
  }

  function Consumed(s: State): seq<Token>
    requires !s.Fail?
  {
    match s
    case Want(c) => Before(c)
    case FirstItem(up) => Before(up) + [LBracket]
    case AfterItem(items, up) => Before(up) + ([LBracket] + ItemTokens(items))
    case FirstName(up) => Before(up) + [LBrace]
    case NextName(members, up) => Before(up) + ([LBrace] + MemberLead(members))
    case NeedColon(members, name, up) => Before(up) + ([LBrace] + MemberLead(members)) + [Str(name)]
    case AfterMember(members, up) => Before(up) + ([LBrace] + MemberTokens(members))
    case Done(v) => Tokens(v)
  }

  lemma PlugConsumed(c: Context, v: Json)
    ensures Consumed(Plug(c, v)) == Before(c) + Tokens(v)
  {
    match c
    case Top =>
    case InArray(items, up) =>
      TokensSnoc(items, [], [], v);
      Regroup(Before(up), [LBracket], ItemLead(items), Tokens(v));
    case InObject(members, name, up) =>
      var naming := [Str(name), Colon];
      TokensSnoc([], members, name, v);
      Regroup(Before(up), [LBrace], MemberLead(members), naming + Tokens(v));
      Sequences.Assoc(Before(up) + ([LBrace] + MemberLead(members)), naming, Tokens(v));
  }

  lemma Regroup(a: seq<Token>, b: seq<Token>, c: seq<Token>, d: seq<Token>)
    ensures a + (b + (c + d)) == a + (b + c) + d
  {
    Sequences.Assoc(b, c, d);
    Sequences.Assoc(a, b + c, d);
  }

  predicate Nonempty(s: State) {
    (s.NextName? ==> s.members != []) && (s.AfterMember? ==> s.members != []) && (s.AfterItem? ==> s.items != [])
  }

  lemma StepConsumed(s: State, t: Token)
    requires Nonempty(s) && !Step(s, t).Fail?
    ensures Consumed(Step(s, t)) == Consumed(s) + [t] && Nonempty(Step(s, t))
  {
    if s.Want? {
      StartConsumed(s.at, t);
    } else if s.FirstItem? && t != RBracket {
      StartConsumed(InArray([], s.up), t);
      assert Before(InArray([], s.up)) == Consumed(s);
    } else if t == RBracket || t == RBrace {
      CloseConsumed(s, t);
    } else if s.AfterItem? || s.AfterMember? {
      CommaConsumed(s);
    }
  }

  lemma CommaConsumed(s: State)
    requires Nonempty(s) && (s.AfterItem? || s.AfterMember?)
    ensures Consumed(Step(s, Comma)) == Consumed(s) + [Comma]
  {
    if s.AfterItem? {
      assert [LBracket] + ItemLead(s.items) == [LBracket] + ItemTokens(s.items) + [Comma];
    } else {
      assert [LBrace] + MemberLead(s.members) == [LBrace] + MemberTokens(s.members) + [Comma];
    }
  }

  lemma CloseConsumed(s: State, t: Token)
    requires t == RBracket || t == RBrace
    requires !s.Want? && !Step(s, t).Fail?
    ensures Consumed(Step(s, t)) == Consumed(s) + [t] && Nonempty(Step(s, t))
  {
    match s
    case FirstItem(up) => CloseWith(up, JArray([]), [LBracket], t);
    case AfterItem(items, up) => CloseWith(up, JArray(items), [LBracket] + ItemTokens(items), t);
    case FirstName(up) => CloseWith(up, JObject([]), [LBrace], t);
    case AfterMember(members, up) => CloseWith(up, JObject(members), [LBrace] + MemberTokens(members), t);
  }

  lemma CloseWith(up: Context, v: Json, soFar: seq<Token>, t: Token)
    requires Tokens(v) == soFar + [t]
    ensures Consumed(Plug(up, v)) == Before(up) + soFar + [t] && Nonempty(Plug(up, v))
  {
    PlugConsumed(up, v);
  }

  lemma StartConsumed(c: Context, t: Token)
    requires !StartValue(c, t).Fail?
    ensures Consumed(StartValue(c, t)) == Before(c) + [t] && Nonempty(StartValue(c, t))
  {
    if t.Str? { PlugConsumed(c, JString(t.value)); }
    if t.Lit? { PlugConsumed(c, JLiteral(t.text)); }
  }

  lemma {:induction false} RunConsumed(s: State, ts: seq<Token>)
    requires Nonempty(s) && !Run(s, ts).Fail?
    ensures !s.Fail? && Consumed(Run(s, ts)) == Consumed(s) + ts && Nonempty(Run(s, ts))
    decreases ts
  {
    if ts == [] {
      assert !s.Fail? ==> Consumed(s) + ts == Consumed(s);
    } else {
      var next := Step(s, ts[0]);
      if next.Fail? { RunFail(ts[1..]); }
      StepConsumed(s, ts[0]);
      RunConsumed(next, ts[1..]);
      Rejoin(Consumed(s), ts);
    }
  }

  lemma Rejoin(x: seq<Token>, ts: seq<Token>)
    requires ts != []
    ensures x + [ts[0]] + ts[1..] == x + ts
  {
  }

  /** The reader takes a value's own tokens, in any context, to the state after that value. */
  lemma {:induction false} RunValue(c: Context, v: Json)
    ensures Run(Want(c), Tokens(v)) == Plug(c, v)
    decreases v, 0
  {
    match v
    case JString(s) => RunOne(Want(c), Str(s));
    case JLiteral(t) => RunOne(Want(c), Lit(t));
    case JArray(items) =>
      RunItems(c, items);
      RunBracketed(c, LBracket, ItemTokens(items), RBracket);
      CloseStep(c, items, []);
    case JObject(members) =>
      RunMembers(c, members);
      RunBracketed(c, LBrace, MemberTokens(members), RBrace);
      CloseStep(c, [], members);
  }

  lemma CloseStep(up: Context, items: seq<Json>, members: seq<Member>)
    ensures Step(Items(items, up), RBracket) == Plug(up, JArray(items))
    ensures Step(Members(members, up), RBrace) == Plug(up, JObject(members))
  {
  }

  lemma RunBracketed(c: Context, open: Token, ts: seq<Token>, close: Token)
    ensures Run(Want(c), [open] + ts + [close]) == Step(Run(StartValue(c, open), ts), close)
  {
    RunConcat(Want(c), [open] + ts, [close]);
    RunConcat(Want(c), [open], ts);
    RunOne(Want(c), open);
    RunOne(Run(StartValue(c, open), ts), close);
  }

  function Items(items: seq<Json>, up: Context): State { if items == [] then FirstItem(up) else AfterItem(items, up) }

  function Members(members: seq<Member>, up: Context): State {
    if members == [] then FirstName(up) else AfterMember(members, up)
  }

  lemma {:induction false} RunItems(up: Context, items: seq<Json>)
    ensures Run(FirstItem(up), ItemTokens(items)) == Items(items, up)
    decreases items, 1
  {
    if items != [] {
      var n := |items| - 1;
      var (init, last) := (items[..n], items[n]);
      assert items == init + [last];
      TokensSnoc(init, [], [], last);
      RunItems(up, init);
      RunValue(InArray(init, up), last);
      RunConcat(FirstItem(up), ItemLead(init), Tokens(last));
      if n == 0 {
        RunFirst(up, last);
      } else {
        RunConcat(FirstItem(up), ItemTokens(init), [Comma]);
        RunOne(AfterItem(init, up), Comma);
      }
    }
  }

  /** After '[' a first item is read as any other value is. */
  lemma RunFirst(up: Context, v: Json)
    ensures Run(FirstItem(up), Tokens(v)) == Run(Want(InArray([], up)), Tokens(v))
  {
    var t := Tokens(v)[0];
    assert t != RBracket;
    assert Step(FirstItem(up), t) == Step(Want(InArray([], up)), t);
  }

  lemma {:induction false} RunMembers(up: Context, members: seq<Member>)
    ensures Run(FirstName(up), MemberTokens(members)) == Members(members, up)
    decreases members, 1
  {
    if members != [] {
      var n := |members| - 1;
      var (init, last) := (members[..n], members[n]);
      assert members == init + [Member(last.name, last.value)];
      TokensSnoc([], init, last.name, last.value);
      RunMembers(up, init);
      RunValue(InObject(init, last.name, up), last.value);
      RunConcat(FirstName(up), MemberLead(init), [Str(last.name), Colon] + Tokens(last.value));
      if n > 0 {
        RunConcat(FirstName(up), MemberTokens(init), [Comma]);
        RunOne(AfterMember(init, up), Comma);
      }
      RunNamed(Run(FirstName(up), MemberLead(init)), last.name, Tokens(last.value));
    }
  }

  lemma RunNamed(s: State, name: Bytes, ts: seq<Token>)
    requires s.FirstName? || s.NextName?
    ensures Run(s, [Str(name), Colon] + ts)
         == Run(Want(InObject(if s.FirstName? then [] else s.members, name, s.up)), ts)
  {
    RunConcat(s, [Str(name)] + [Colon], ts);
    RunConcat(s, [Str(name)], [Colon]);
    RunOne(s, Str(name));
    RunOne(Step(s, Str(name)), Colon);
    assert [Str(name)] + [Colon] == [Str(name), Colon];
  }

  // ---- texts -----------------------------------------------------------------------------

  /** The value a text denotes, if it is a JSON text at all. */
  function Parse(s: Bytes): Option<Json> {
    var ts := Lex(s);
    if ts.None? then None
    else
      var end := Run(Want(Top), ts.value);
      if end.Done? then Some(end.value) else None
  }

  /** The reader is exact: a token sequence is read as `v` if and only if it is the one that
      the grammar gives to `v`. Hence no text denotes two values. */
  lemma ReaderExact(ts: seq<Token>, v: Json)
    ensures Run(Want(Top), ts) == Done(v) <==> ts == Tokens(v)
  {
    RunValue(Top, v);
    if Run(Want(Top), ts) == Done(v) { RunConsumed(Want(Top), ts); }
  }
}
