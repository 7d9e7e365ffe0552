/** The texts of whole log entries and of console contexts: when they are JSON, what they
    denote, and that they stay on one line. */
module EntryText {
  import Sequences
  import opened Utf8
  import opened JsonString
  import opened JsonText
  import opened EncoderOps
  import opened EncoderCalls
  import opened EncoderMeaning
  import opened EncoderScope

  // ---- concatenated calls ------------------------------------------------------------------

  lemma {:induction false} CallOpsConcat(x: seq<Call>, y: seq<Call>)
    ensures CallOps(x + y) == CallOps(x) + CallOps(y)
    ensures Spaces(x + y) == Spaces(x) + Spaces(y)
    ensures CallsOk(x + y) <==> CallsOk(x) && CallsOk(y)
    decreases x
  {
    if x == [] {
      assert x + y == y && [] + CallOps(y) == CallOps(y);
    } else {
      assert (x + y)[1..] == x[1..] + y;
      CallOpsConcat(x[1..], y);
      Sequences.Assoc(OneCallOps(x[0]), CallOps(x[1..]), CallOps(y));
    }
  }

  lemma {:induction false} KeyFirst(cs: seq<Call>)
    ensures CallOps(cs) != [] ==> CallOps(cs)[0].Key?
    ensures CallOps(cs) == [] <==> Silent(cs)
  {
    if cs != [] {
      KeyFirst(cs[1..]);
      assert cs == [cs[0]] + cs[1..];
    }
  }

  /** Calls that open no namespace leave the calls behind them alone. */
  lemma {:induction false} FlatConcat(x: seq<Call>, y: seq<Call>)
    requires Spaces(x) == 0
    ensures Fields(x + y) == Fields(x) + Fields(y)
    ensures Tidy(x + y) <==> Tidy(x) && Tidy(y)
    ensures Single(x + y) <==> Single(x) && Single(y)
    decreases x
  {
    if x == [] {
      assert x + y == y && [] + Fields(y) == Fields(y);
    } else {
      assert (x + y)[1..] == x[1..] + y;
      FlatConcat(x[1..], y);
      Sequences.Assoc(FieldOf(x[0].key, x[0].elem), Fields(x[1..]), Fields(y));
    }
  }

  // ---- braces around calls -------------------------------------------------------------------

  /** An object holding `calls`, every namespace closed, and then `tail` at its top level. */
  function Braced(calls: seq<Call>, tail: seq<Call>): seq<Op> {
    [OpenObject] + CallOps(calls) + Repeat(CloseObject, Spaces(calls)) + CallOps(tail) + [CloseObject]
  }

  lemma AfterParts(body: seq<Op>, closers: seq<Op>, rest: seq<Op>)
    ensures AfterOps(Want(Top), [OpenObject] + body + closers + rest + [CloseObject])
         == AfterOp(AfterOps(AfterOps(AfterOps(FirstName(Top), body), closers), rest), CloseObject)
  {
    AfterConcat(Want(Top), [OpenObject] + body + closers + rest, [CloseObject]);
    AfterOne(AfterOps(Want(Top), [OpenObject] + body + closers + rest), CloseObject);
    AfterConcat(Want(Top), [OpenObject] + body + closers, rest);
    AfterConcat(Want(Top), [OpenObject] + body, closers);
    AfterConcat(Want(Top), [OpenObject], body);
    AfterOne(Want(Top), OpenObject);
  }

  lemma AfterBraced(calls: seq<Call>, tail: seq<Call>)
    ensures var s := AfterOps(FirstName(Top), CallOps(calls));
            AfterOps(Want(Top), Braced(calls, tail))
            == AfterOp(AfterOps(AfterOps(s, Repeat(CloseObject, Spaces(calls))), CallOps(tail)), CloseObject)
  {
    AfterParts(CallOps(calls), Repeat(CloseObject, Spaces(calls)), CallOps(tail));
  }

  lemma BracedGood(calls: seq<Call>, tail: seq<Call>)
    requires CallsOk(calls) && CallsOk(tail) && Spaces(tail) == 0
    ensures AfterOps(Want(Top), Braced(calls, tail)) == Done(JObject(TopMembers(calls) + Spread(tail)))
  {
    var start := Cursor([], Top);
    var w := Written(calls, start);
    var c := LeaveAll(w, Spaces(calls));
    AfterBraced(calls, tail);
    GoodCalls(calls, start);
    WrittenDepth(calls, start);
    CloseSpaces(w, Spaces(calls), Top);
    GoodCalls(tail, c);
    WrittenFlat(tail, c);
    CloseStep(Top, [], c.members + Spread(tail));
  }

  lemma BracedBad(calls: seq<Call>, tail: seq<Call>)
    requires !CallsOk(calls)
    ensures AfterOps(Want(Top), Braced(calls, tail)).Fail?
  {
    AfterBraced(calls, tail);
    BadCalls(calls, Cursor([], Top));
    var s := AfterOps(FirstName(Top), CallOps(calls));
    DeadOps(s, Repeat(CloseObject, Spaces(calls)));
    s := AfterOps(s, Repeat(CloseObject, Spaces(calls)));
    DeadOps(s, CallOps(tail));
    DeadOp(AfterOps(s, CallOps(tail)), CloseObject);
  }

  /** Braces around calls make a JSON text exactly when a JSON text can hold the calls; `tail`
      then stands at top level however many namespaces were opened; and the value is the one
      intended exactly when, besides, the calls are tidy and no callback appends several items. */
  lemma BracedExact(calls: seq<Call>, tail: seq<Call>, spaced: bool)
    requires CallsOk(tail) && Spaces(tail) == 0
    ensures var doc := Parse(Exec([], Braced(calls, tail), spaced));
            && doc == (if CallsOk(calls) then Some(JObject(TopMembers(calls) + Spread(tail))) else None)
            && (doc == Some(JObject(Fields(calls) + Fields(tail))) <==>
                CallsOk(calls) && Tidy(calls) && Single(calls) && Single(tail))
  {
    ParseExec(Braced(calls, tail), spaced);
    if CallsOk(calls) {
      BracedGood(calls, tail);
      ScopeExact(calls);
      SpreadExact(tail);
      SpreadWeight(tail, 0);
      SameEnds(TopMembers(calls), Spread(tail), Fields(calls), Fields(tail));
    } else {
      BracedBad(calls, tail);
    }
  }

  lemma SameEnds<T>(a: seq<T>, b: seq<T>, c: seq<T>, d: seq<T>)
    requires |b| == |d|
    ensures a + b == c + d <==> a == c && b == d
  {
    if a + b == c + d {
      assert |a + b| == |c + d|;
      Sequences.SameParts(a, b, c, d);
    }
  }

  // ---- entries --------------------------------------------------------------------------------

  datatype Caller = Caller(file: Bytes, line: CompactJson, fullPath: Bytes, funcName: Bytes)

  /** zapcore.EncoderConfig. An empty key leaves its element out. A callback is given by the
      primitives it appends; a missing name callback means FullNameEncoder. */
  datatype Config = Config(
    messageKey: Bytes, levelKey: Bytes, timeKey: Bytes, nameKey: Bytes, callerKey: Bytes, stacktraceKey: Bytes,
    lineEnding: Bytes,
    encodeLevel: int -> seq<Prim>,
    encodeTime: int -> seq<Prim>,
    encodeCaller: Caller -> seq<Prim>,
    encodeName: Option<Bytes -> seq<Prim>>)

  /** zapcore.Entry, with the texts that the standard library gives to its level, its time in
      nanoseconds, and its caller. */
  datatype Entry = Entry(
    level: int, levelText: Bytes, time: int, nanos: CompactJson, loggerName: Bytes,
    caller: Option<Caller>, message: Bytes, stack: Bytes)

  function When(present: bool, call: Call): seq<Call> { if present then [call] else [] }

  function NamePrims(cfg: Config, name: Bytes): seq<Prim> {
    match cfg.encodeName case Some(f) => f(name) case None => [PText(name)]
  }

  function LevelCall(cfg: Config, ent: Entry): Call {
    Add(cfg.levelKey, Stamp(cfg.encodeLevel(ent.level), PText(ent.levelText)))
  }

  function TimeCall(cfg: Config, ent: Entry): Call {
    Add(cfg.timeKey, Stamp(cfg.encodeTime(ent.time), PRaw(ent.nanos)))
  }

  function NameCall(cfg: Config, ent: Entry): Call {
    Add(cfg.nameKey, Stamp(NamePrims(cfg, ent.loggerName), PText(ent.loggerName)))
  }

  function CallerCall(cfg: Config, caller: Caller): Call {
    Add(cfg.callerKey, Stamp(cfg.encodeCaller(caller), PText(caller.fullPath)))
  }

  predicate HasCaller(cfg: Config, ent: Entry) { ent.caller.Some? && cfg.callerKey != [] }
  predicate HasName(cfg: Config, ent: Entry) { ent.loggerName != [] && cfg.nameKey != [] }
  predicate HasStack(cfg: Config, ent: Entry) { ent.stack != [] && cfg.stacktraceKey != [] }

  function LevelAndTime(cfg: Config, ent: Entry): seq<Call> {
    When(cfg.levelKey != [], LevelCall(cfg, ent)) + When(cfg.timeKey != [], TimeCall(cfg, ent))
  }

  function CallerCalls(cfg: Config, ent: Entry): seq<Call> {
    if HasCaller(cfg, ent) then [CallerCall(cfg, ent.caller.value)] else []
  }

  function NameAndCaller(cfg: Config, ent: Entry): seq<Call> {
    When(HasName(cfg, ent), NameCall(cfg, ent)) + CallerCalls(cfg, ent)
  }

  function MessageCalls(cfg: Config, ent: Entry): seq<Call> {
    When(cfg.messageKey != [], Add(cfg.messageKey, Prim(PText(ent.message))))
  }

  /** Level, time, logger name, caller and message, in this order. */
  function MetaCalls(cfg: Config, ent: Entry): seq<Call> {
    LevelAndTime(cfg, ent) + NameAndCaller(cfg, ent) + MessageCalls(cfg, ent)
  }

  function StackCalls(cfg: Config, ent: Entry): seq<Call> {
    When(HasStack(cfg, ent), Add(cfg.stacktraceKey, Prim(PText(ent.stack))))
  }

  /** Each callback that is asked appends at most one primitive. */
  predicate CallbacksOk(cfg: Config, ent: Entry) {
    && (cfg.levelKey != [] ==> |cfg.encodeLevel(ent.level)| <= 1)
    && (cfg.timeKey != [] ==> |cfg.encodeTime(ent.time)| <= 1)
    && (HasName(cfg, ent) ==> |NamePrims(cfg, ent.loggerName)| <= 1)
    && (HasCaller(cfg, ent) ==> |cfg.encodeCaller(ent.caller.value)| <= 1)
  }

  lemma WhenCalls(present: bool, k: Bytes, e: Elem)
    requires e.Stamp? || e.Prim?
    ensures var cs := When(present, Add(k, e));
            && Flat(cs) && (CallsOk(cs) <==> (present ==> MemberOk(e))) && (Single(cs) <==> CallsOk(cs))
  {
    var cs := When(present, Add(k, e));
    if present {
      assert cs[1..] == [];
      assert CallSpaces(cs[0]) == ElemSpaces(e) == 0;
      assert CallOk(cs[0]) <==> MemberOk(e);
    }
  }

  lemma MetaCallsExact(cfg: Config, ent: Entry)
    ensures var meta := MetaCalls(cfg, ent);
            Flat(meta) && (CallsOk(meta) <==> CallbacksOk(cfg, ent)) && (Single(meta) <==> CallbacksOk(cfg, ent))
  {
    WhenCalls(cfg.levelKey != [], cfg.levelKey, LevelCall(cfg, ent).elem);
    WhenCalls(cfg.timeKey != [], cfg.timeKey, TimeCall(cfg, ent).elem);
    FlatJoin(When(cfg.levelKey != [], LevelCall(cfg, ent)), When(cfg.timeKey != [], TimeCall(cfg, ent)));
    WhenCalls(HasName(cfg, ent), cfg.nameKey, NameCall(cfg, ent).elem);
    CallerCallsExact(cfg, ent);
    FlatJoin(When(HasName(cfg, ent), NameCall(cfg, ent)), CallerCalls(cfg, ent));
    WhenCalls(cfg.messageKey != [], cfg.messageKey, Prim(PText(ent.message)));
    FlatJoin(LevelAndTime(cfg, ent), NameAndCaller(cfg, ent));
    FlatJoin(LevelAndTime(cfg, ent) + NameAndCaller(cfg, ent), MessageCalls(cfg, ent));
  }

  lemma CallerCallsExact(cfg: Config, ent: Entry)
    ensures var cs := CallerCalls(cfg, ent);
            && Flat(cs) && (CallsOk(cs) <==> (HasCaller(cfg, ent) ==> |cfg.encodeCaller(ent.caller.value)| <= 1))
            && (Single(cs) <==> CallsOk(cs))
  {
    if HasCaller(cfg, ent) { WhenCalls(true, cfg.callerKey, CallerCall(cfg, ent.caller.value).elem); }
  }

  predicate Flat(cs: seq<Call>) { Spaces(cs) == 0 && Tidy(cs) }

  lemma FlatJoin(x: seq<Call>, y: seq<Call>)
    requires Flat(x) && Flat(y)
    ensures Flat(x + y) && (CallsOk(x + y) <==> CallsOk(x) && CallsOk(y)) && (Single(x + y) <==> Single(x) && Single(y))
  {
    CallOpsConcat(x, y);
    FlatConcat(x, y);
  }

  /** The writes of an entry with `calls` as its context. */
  function EntryOps(cfg: Config, ent: Entry, calls: seq<Call>): seq<Op> {
    Braced(MetaCalls(cfg, ent) + calls, StackCalls(cfg, ent))
  }

  function EntryDoc(cfg: Config, ent: Entry, calls: seq<Call>, spaced: bool): Bytes {
    Exec([], EntryOps(cfg, ent, calls), spaced)
  }

  function LineEnd(cfg: Config): Bytes { if cfg.lineEnding != [] then cfg.lineEnding else [NEWLINE] }

  function EntryLine(cfg: Config, ent: Entry, calls: seq<Call>, spaced: bool): Bytes {
    EntryDoc(cfg, ent, calls, spaced) + LineEnd(cfg)
  }

  /** Metadata first, then the context, then the stack trace at top level. */
  function EntryValue(cfg: Config, ent: Entry, calls: seq<Call>): Json {
    JObject(Fields(MetaCalls(cfg, ent)) + Fields(calls) + Fields(StackCalls(cfg, ent)))
  }

  /** For every configuration, entry and context: the entry is a JSON text if and only if no
      callback appends two primitives under its key and no object in an array opens a namespace;
      and it denotes the value intended if and only if, besides, nothing was added behind an
      object in which a namespace was opened, and no callback appends two primitives in an array. */
  lemma EntryExact(cfg: Config, ent: Entry, calls: seq<Call>, spaced: bool)
    ensures var doc := Parse(EntryDoc(cfg, ent, calls, spaced));
            && (doc.Some? <==> CallbacksOk(cfg, ent) && CallsOk(calls))
            && (doc == Some(EntryValue(cfg, ent, calls)) <==>
                CallbacksOk(cfg, ent) && CallsOk(calls) && Tidy(calls) && Single(calls))
  {
    var (meta, tail) := (MetaCalls(cfg, ent), StackCalls(cfg, ent));
    MetaCallsExact(cfg, ent);
    WhenCalls(HasStack(cfg, ent), cfg.stacktraceKey, Prim(PText(ent.stack)));
    CallOpsConcat(meta, calls);
    FlatConcat(meta, calls);
    BracedExact(meta + calls, tail, spaced);
  }

  // ---- the members of an entry ---------------------------------------------------------------------

  /** How many metadata members come before the time, the name, the caller and the message, and
      how many there are. */
  function TimeAt(cfg: Config): nat { if cfg.levelKey != [] then 1 else 0 }

  function NameAt(cfg: Config): nat { TimeAt(cfg) + if cfg.timeKey != [] then 1 else 0 }

  function CallerAt(cfg: Config, ent: Entry): nat {
    NameAt(cfg) + if ent.loggerName != [] && cfg.nameKey != [] then 1 else 0
  }

  function MessageAt(cfg: Config, ent: Entry): nat {
    CallerAt(cfg, ent) + if ent.caller.Some? && cfg.callerKey != [] then 1 else 0
  }

  function MetaCount(cfg: Config, ent: Entry): nat { MessageAt(cfg, ent) + if cfg.messageKey != [] then 1 else 0 }

  predicate MemberAt(ms: seq<Member>, i: nat, key: Bytes, v: Json) {
    i < |ms| && ms[i] == Member(Sanitize(key), v)
  }

  /** What a callback that was asked for one value appended, or the fallback. */
  function Answer(ps: seq<Prim>, fallback: Prim): Json { PrimValue(if ps == [] then fallback else ps[0]) }

  function LevelValue(cfg: Config, ent: Entry): Json { Answer(cfg.encodeLevel(ent.level), PText(ent.levelText)) }

  function TimeValue(cfg: Config, ent: Entry): Json { Answer(cfg.encodeTime(ent.time), PRaw(ent.nanos)) }

  function NameValue(cfg: Config, ent: Entry): Json {
    match cfg.encodeName
    case None => JString(Sanitize(ent.loggerName))
    case Some(f) => Answer(f(ent.loggerName), PText(ent.loggerName))
  }

  function CallerValue(cfg: Config, caller: Caller): Json {
    Answer(cfg.encodeCaller(caller), PText(caller.fullPath))
  }

  predicate HasLevelAndTime(cfg: Config, ent: Entry, ms: seq<Member>) {
    && (cfg.levelKey != [] ==> MemberAt(ms, 0, cfg.levelKey, LevelValue(cfg, ent)))
    && (cfg.timeKey != [] ==> MemberAt(ms, TimeAt(cfg), cfg.timeKey, TimeValue(cfg, ent)))
  }

  predicate HasNameAndCaller(cfg: Config, ent: Entry, ms: seq<Member>) {
    && (ent.loggerName != [] && cfg.nameKey != [] ==>
          MemberAt(ms, NameAt(cfg), cfg.nameKey, NameValue(cfg, ent)))
    && (ent.caller.Some? && cfg.callerKey != [] ==>
          MemberAt(ms, CallerAt(cfg, ent), cfg.callerKey, CallerValue(cfg, ent.caller.value)))
  }

  predicate HasMessage(cfg: Config, ent: Entry, ms: seq<Member>) {
    cfg.messageKey != [] ==> MemberAt(ms, MessageAt(cfg, ent), cfg.messageKey, JString(Sanitize(ent.message)))
  }

  /** The first members are level, time, logger name, caller and message, in this order, those that
      have a key, and name and caller only if the entry has one. */
  predicate HasMetadata(cfg: Config, ent: Entry, ms: seq<Member>) {
    && MetaCount(cfg, ent) <= |ms|
    && HasLevelAndTime(cfg, ent, ms) && HasNameAndCaller(cfg, ent, ms) && HasMessage(cfg, ent, ms)
  }

  lemma WhenFields(present: bool, k: Bytes, e: Elem)
    requires e.Stamp? || e.Prim?
    ensures Some(Fields(When(present, Add(k, e))))
         == Some(if present then [Member(Sanitize(k), ElemValues(e)[0])] else [])
  {
    var cs := When(present, Add(k, e));
    if present {
      assert cs[1..] == [];
      assert Fields(cs) == FieldOf(k, e) + [] == FieldOf(k, e);
    }
  }

  /** The members of metadata, by those of its five parts. */
  lemma MetaParts(cfg: Config, ent: Entry)
    ensures Some(Fields(MetaCalls(cfg, ent)))
         == Some((Fields(When(cfg.levelKey != [], LevelCall(cfg, ent)))
                  + Fields(When(cfg.timeKey != [], TimeCall(cfg, ent))))
                 + (Fields(When(HasName(cfg, ent), NameCall(cfg, ent))) + Fields(CallerCalls(cfg, ent)))
                 + Fields(MessageCalls(cfg, ent)))
  {
    WhenCalls(cfg.levelKey != [], cfg.levelKey, LevelCall(cfg, ent).elem);
    WhenCalls(cfg.timeKey != [], cfg.timeKey, TimeCall(cfg, ent).elem);
    WhenCalls(HasName(cfg, ent), cfg.nameKey, NameCall(cfg, ent).elem);
    CallerCallsExact(cfg, ent);
    FlatConcat(When(cfg.levelKey != [], LevelCall(cfg, ent)), When(cfg.timeKey != [], TimeCall(cfg, ent)));
    FlatConcat(When(HasName(cfg, ent), NameCall(cfg, ent)), CallerCalls(cfg, ent));
    FlatJoin(When(cfg.levelKey != [], LevelCall(cfg, ent)), When(cfg.timeKey != [], TimeCall(cfg, ent)));
    FlatJoin(When(HasName(cfg, ent), NameCall(cfg, ent)), CallerCalls(cfg, ent));
    FlatConcat(LevelAndTime(cfg, ent), NameAndCaller(cfg, ent));
    FlatJoin(LevelAndTime(cfg, ent), NameAndCaller(cfg, ent));
    FlatConcat(LevelAndTime(cfg, ent) + NameAndCaller(cfg, ent), MessageCalls(cfg, ent));
  }

  /** One member if it is present, and none otherwise. */
  predicate IsNamed(ms: seq<Member>, present: bool, key: Bytes, v: Json) {
    |ms| == (if present then 1 else 0) && (present ==> ms[0] == Member(Sanitize(key), v))
  }

  lemma StampFields(present: bool, k: Bytes, ps: seq<Prim>, fallback: Prim)
    ensures IsNamed(Fields(When(present, Add(k, Stamp(ps, fallback)))), present, k, Answer(ps, fallback))
  {
    WhenFields(present, k, Stamp(ps, fallback));
  }

  lemma NameFields(cfg: Config, ent: Entry)
    ensures IsNamed(Fields(When(HasName(cfg, ent), NameCall(cfg, ent))), HasName(cfg, ent), cfg.nameKey,
                    NameValue(cfg, ent))
  {
    StampFields(HasName(cfg, ent), cfg.nameKey, NamePrims(cfg, ent.loggerName), PText(ent.loggerName));
  }

  lemma CallerFields(cfg: Config, ent: Entry)
    ensures if HasCaller(cfg, ent)
            then IsNamed(Fields(CallerCalls(cfg, ent)), true, cfg.callerKey, CallerValue(cfg, ent.caller.value))
            else Fields(CallerCalls(cfg, ent)) == []
  {
    if HasCaller(cfg, ent) {
      var caller := ent.caller.value;
      StampFields(true, cfg.callerKey, cfg.encodeCaller(caller), PText(caller.fullPath));
    }
  }

  lemma FiveParts<T>(l: seq<T>, t: seq<T>, n: seq<T>, c: seq<T>, m: seq<T>)
    ensures var all := (l + t) + (n + c) + m;
            && |all| == |l| + |t| + |n| + |c| + |m|
            && (|l| > 0 ==> all[0] == l[0])
            && (|t| > 0 ==> all[|l|] == t[0])
            && (|n| > 0 ==> all[|l| + |t|] == n[0])
            && (|c| > 0 ==> all[|l| + |t| + |n|] == c[0])
            && (|m| > 0 ==> all[|l| + |t| + |n| + |c|] == m[0])
  {
  }

  lemma PartsAre(cfg: Config, ent: Entry, l: seq<Member>, t: seq<Member>, n: seq<Member>, c: seq<Member>,
                 m: seq<Member>)
    requires IsNamed(l, cfg.levelKey != [], cfg.levelKey, LevelValue(cfg, ent))
    requires IsNamed(t, cfg.timeKey != [], cfg.timeKey, TimeValue(cfg, ent))
    requires IsNamed(n, HasName(cfg, ent), cfg.nameKey, NameValue(cfg, ent))
    requires if HasCaller(cfg, ent) then IsNamed(c, true, cfg.callerKey, CallerValue(cfg, ent.caller.value))
             else |c| == 0
    requires IsNamed(m, cfg.messageKey != [], cfg.messageKey, JString(Sanitize(ent.message)))
    ensures var all := (l + t) + (n + c) + m; |all| == MetaCount(cfg, ent) && HasMetadata(cfg, ent, all)
  {
    var all := (l + t) + (n + c) + m;
    FiveParts(l, t, n, c, m);
    assert |l| == TimeAt(cfg) && |l| + |t| == NameAt(cfg);
    assert |l| + |t| + |n| == CallerAt(cfg, ent) && |l| + |t| + |n| + |c| == MessageAt(cfg, ent);
    PlacedAt(all, 0, l);
    PlacedAt(all, |l|, t);
    PlacedAt(all, |l| + |t|, n);
    PlacedAt(all, |l| + |t| + |n|, c);
    PlacedAt(all, |l| + |t| + |n| + |c|, m);
  }

  lemma PlacedAt(all: seq<Member>, i: nat, part: seq<Member>)
    requires |part| > 0 ==> i < |all| && all[i] == part[0]
    ensures forall key, v :: IsNamed(part, true, key, v) ==> MemberAt(all, i, key, v)
  {
  }

  lemma MetaFields(cfg: Config, ent: Entry)
    ensures |Fields(MetaCalls(cfg, ent))| == MetaCount(cfg, ent) && HasMetadata(cfg, ent, Fields(MetaCalls(cfg, ent)))
  {
    StampFields(cfg.levelKey != [], cfg.levelKey, cfg.encodeLevel(ent.level), PText(ent.levelText));
    StampFields(cfg.timeKey != [], cfg.timeKey, cfg.encodeTime(ent.time), PRaw(ent.nanos));
    NameFields(cfg, ent);
    CallerFields(cfg, ent);
    WhenFields(cfg.messageKey != [], cfg.messageKey, Prim(PText(ent.message)));
    PartsAre(cfg, ent, Fields(When(cfg.levelKey != [], LevelCall(cfg, ent))),
             Fields(When(cfg.timeKey != [], TimeCall(cfg, ent))),
             Fields(When(HasName(cfg, ent), NameCall(cfg, ent))), Fields(CallerCalls(cfg, ent)),
             Fields(MessageCalls(cfg, ent)));
    MetaParts(cfg, ent);
  }

  lemma MetadataKept(cfg: Config, ent: Entry, first: seq<Member>, ms: seq<Member>)
    requires HasMetadata(cfg, ent, first) && first <= ms
    ensures HasMetadata(cfg, ent, ms)
  {
  }

  /** Whatever the context does, and however its namespaces are nested: the members of an entry
      begin with its metadata, end with its stack trace if it has one, and in between are the
      fields of the context exactly when these are tidy and no callback appends several items. */
  lemma EntryTopLevel(cfg: Config, ent: Entry, calls: seq<Call>, spaced: bool)
    requires CallbacksOk(cfg, ent) && CallsOk(calls)
    requires forall i | 0 <= i < |cfg.lineEnding| :: IsWhitespace(cfg.lineEnding[i])
    ensures var doc := Parse(EntryLine(cfg, ent, calls, spaced));
            && doc.Some? && doc.value.JObject?
            && HasMetadata(cfg, ent, doc.value.members)
            && HasStackTrace(cfg, ent, doc.value.members)
            && (Between(cfg, ent, doc.value.members) == Fields(calls) <==> Tidy(calls) && Single(calls))
  {
    var (meta, tail) := (MetaCalls(cfg, ent), StackCalls(cfg, ent));
    assert Parse(EntryLine(cfg, ent, calls, spaced)) == Parse(EntryDoc(cfg, ent, calls, spaced)) by {
      LineParses(cfg, ent, calls, spaced);
    }
    MetaCallsExact(cfg, ent);
    WhenCalls(HasStack(cfg, ent), cfg.stacktraceKey, Prim(PText(ent.stack)));
    CallOpsConcat(meta, calls);
    BracedTopLevel(meta, calls, tail, spaced);
    EntryExact(cfg, ent, calls, spaced);
    MembersAre(cfg, ent, TopMembers(meta + calls), Fields(calls));
  }

  /** The last member is the stack trace, if the entry has one and it has a key. */
  predicate HasStackTrace(cfg: Config, ent: Entry, ms: seq<Member>) {
    ent.stack != [] && cfg.stacktraceKey != [] ==>
      MetaCount(cfg, ent) < |ms| && MemberAt(ms, |ms| - 1, cfg.stacktraceKey, JString(Sanitize(ent.stack)))
  }

  /** The members between metadata and stack trace. */
  function Between(cfg: Config, ent: Entry, ms: seq<Member>): seq<Member>
    requires HasMetadata(cfg, ent, ms) && HasStackTrace(cfg, ent, ms)
  {
    ms[MetaCount(cfg, ent)..if ent.stack != [] && cfg.stacktraceKey != [] then |ms| - 1 else |ms|]
  }

  lemma MembersAre(cfg: Config, ent: Entry, top: seq<Member>, fields: seq<Member>)
    requires Fields(MetaCalls(cfg, ent)) <= top
    ensures var ms := top + Fields(StackCalls(cfg, ent));
            && HasMetadata(cfg, ent, ms) && HasStackTrace(cfg, ent, ms)
            && (Some(ms) == Some(Fields(MetaCalls(cfg, ent)) + fields + Fields(StackCalls(cfg, ent)))
                <==> Between(cfg, ent, ms) == fields)
  {
    var (first, last) := (Fields(MetaCalls(cfg, ent)), Fields(StackCalls(cfg, ent)));
    MetaFields(cfg, ent);
    WhenFields(HasStack(cfg, ent), cfg.stacktraceKey, Prim(PText(ent.stack)));
    MetadataKept(cfg, ent, first, top + last);
    MembersBetween(first, top, fields, last);
  }

  /** A first part and a last part aside, two lists agree exactly when they agree in between. */
  lemma MembersBetween(first: seq<Member>, top: seq<Member>, mid: seq<Member>, last: seq<Member>)
    requires first <= top
    ensures var ms := top + last;
            && first <= ms && |ms| == |top| + |last| && (last != [] ==> ms[|ms| - 1] == last[|last| - 1])
            && (Some(ms) == Some(first + mid + last) <==> ms[|first|..|ms| - |last|] == mid)
  {
    var ms := top + last;
    assert ms[|first|..|ms| - |last|] == top[|first|..] && top == first + top[|first|..];
    SameEnds(top, last, first + mid, last);
    if top == first + mid { assert (first + mid)[|first|..] == mid; }
  }

  lemma BracedTopLevel(meta: seq<Call>, calls: seq<Call>, tail: seq<Call>, spaced: bool)
    requires Flat(meta) && Single(meta) && CallsOk(meta + calls) && Flat(tail) && Single(tail) && CallsOk(tail)
    ensures var top := TopMembers(meta + calls);
            && Fields(meta) <= top
            && Parse(Exec([], Braced(meta + calls, tail), spaced)) == Some(JObject(top + Fields(tail)))
  {
    CallOpsConcat(meta, calls);
    BracedExact(meta + calls, tail, spaced);
    SpreadExact(tail);
    TopKeeps(meta, calls);
  }

  lemma TopKeeps(meta: seq<Call>, calls: seq<Call>)
    requires Spaces(meta) == 0 && Single(meta) && CallsOk(meta) && CallsOk(calls)
    ensures Fields(meta) <= TopMembers(meta + calls)
  {
    var start := Cursor(Fields(meta), Top);
    assert Written(meta, Cursor([], Top)) == start by {
      WrittenFlat(meta, Cursor([], Top));
      SpreadExact(meta);
      assert [] + Fields(meta) == Fields(meta);
    }
    WrittenConcat(meta, calls, Cursor([], Top));
    CallOpsConcat(meta, calls);
    KeepsToTheEnd(calls, start);
  }

  lemma KeepsToTheEnd(calls: seq<Call>, start: Cursor)
    requires CallsOk(calls) && start.up == Top
    ensures start.members <= LeaveAll(Written(calls, start), Spaces(calls)).members
  {
    WrittenKeeps(calls, start);
    WrittenDepth(calls, start);
    LeaveAllKeeps(Written(calls, start), Spaces(calls));
  }

  lemma {:induction false} WrittenConcat(x: seq<Call>, y: seq<Call>, c: Cursor)
    ensures Written(x + y, c) == Written(y, Written(x, c))
    decreases x
  {
    if x == [] {
      assert x + y == y;
    } else {
      assert (x + y)[1..] == x[1..] + y;
      WrittenConcat(x[1..], y, WrittenOne(x[0], c));
    }
  }

  /** The members of the outermost object. */
  function Bottom(members: seq<Member>, up: Context): seq<Member>
    decreases up
  {
    if up.InObject? then Bottom(up.members, up.up) else members
  }

  /** Nothing written takes away what stands in the outermost object. */
  lemma {:induction false} WrittenKeeps(cs: seq<Call>, c: Cursor)
    ensures var w := Written(cs, c); Bottom(c.members, c.up) <= Bottom(w.members, w.up)
    decreases cs, 2
  {
    if cs != [] {
      OneKeeps(cs[0], c);
      WrittenKeeps(cs[1..], WrittenOne(cs[0], c));
    }
  }

  lemma {:induction false} OneKeeps(call: Call, c: Cursor)
    ensures var w := WrittenOne(call, c); Bottom(c.members, c.up) <= Bottom(w.members, w.up)
    decreases call, 1
  {
    if call.Add? && call.elem.Object? {
      var inner := Enter(c, Sanitize(call.key));
      WrittenKeeps(call.elem.calls, inner);
      LeaveKeeps(Written(call.elem.calls, inner));
    }
  }

  lemma LeaveKeeps(c: Cursor)
    ensures var w := Leave(c); Bottom(c.members, c.up) <= Bottom(w.members, w.up)
  {
  }

  lemma LeaveAllKeeps(c: Cursor, n: nat)
    requires Inside(c.up, n, Top)
    ensures Bottom(c.members, c.up) <= LeaveAll(c, n).members
  {
    LeaveAllBottom(c, n);
    CloseSpaces(c, n, Top);
  }

  lemma {:induction false} LeaveAllBottom(c: Cursor, n: nat)
    ensures var w := LeaveAll(c, n); Bottom(c.members, c.up) <= Bottom(w.members, w.up)
  {
    if n > 0 {
      LeaveAllBottom(c, n - 1);
      LeaveKeeps(LeaveAll(c, n - 1));
    }
  }

  /** Spaces after commas and colons change no value, and no verdict. */
  lemma SpacedSame(ops: seq<Op>)
    ensures Parse(Exec([], ops, true)) == Parse(Exec([], ops, false))
  {
    ParseExec(ops, true);
    ParseExec(ops, false);
  }

  // ---- splicing: what EncodeEntry and writeContext compute ----------------------------------------

  /** The writes of calls behind `b`. */
  function WithCalls(b: Bytes, calls: seq<Call>, spaced: bool): Bytes { Exec(b, CallOps(calls), spaced) }

  /** `n` closing braces behind `b`. */
  function WithClosers(b: Bytes, n: nat, spaced: bool): Bytes { Exec(b, Repeat(CloseObject, n), spaced) }

  /** A printed fragment behind a separator, if it is not empty. */
  function WithFragment(b: Bytes, fragment: Bytes, spaced: bool): Bytes {
    if fragment == [] then b else Separate(b, spaced) + fragment
  }

  /** The body of EncodeEntry, from the buffer and the namespace count of the encoder: the
      metadata, the copied fragment, the fields, the closing braces, the stack trace. */
  function EncodeFrom(meta: seq<Call>, fragment: Bytes, spaces: nat, fields: seq<Call>, tail: seq<Call>, spaced: bool)
    : Bytes
  {
    WithCalls(Body(WithCalls([0x7B], meta, spaced), fragment, spaces, fields, spaced), tail, spaced) + [0x7D]
  }

  function Body(head: Bytes, fragment: Bytes, spaces: nat, fields: seq<Call>, spaced: bool): Bytes {
    WithClosers(WithCalls(WithFragment(head, fragment, spaced), fields, spaced), spaces + Spaces(fields), spaced)
  }

  lemma CallsJoin(b: Bytes, x: seq<Call>, y: seq<Call>, spaced: bool)
    ensures WithCalls(b, x + y, spaced) == WithCalls(WithCalls(b, x, spaced), y, spaced)
    ensures Spaces(x + y) == Spaces(x) + Spaces(y)
  {
    CallOpsConcat(x, y);
    ExecConcat(b, CallOps(x), CallOps(y), spaced);
  }

  /** Copying the fragment of `f` is writing `f` in place. */
  lemma FragmentSplice(head: Bytes, f: seq<Call>, spaced: bool)
    ensures WithFragment(head, WithCalls([], f, spaced), spaced) == WithCalls(head, f, spaced)
  {
    KeyFirst(f);
    ExecSplice(head, CallOps(f), spaced);
  }

  lemma BodySplice(head: Bytes, f: seq<Call>, g: seq<Call>, spaced: bool)
    ensures Body(head, WithCalls([], f, spaced), Spaces(f), g, spaced)
         == WithClosers(WithCalls(head, f + g, spaced), Spaces(f + g), spaced)
  {
    FragmentSplice(head, f, spaced);
    CallsJoin(head, f, g, spaced);
  }

  lemma SpliceBraced(meta: seq<Call>, f: seq<Call>, g: seq<Call>, tail: seq<Call>, spaced: bool)
    requires Spaces(meta) == 0
    ensures EncodeFrom(meta, WithCalls([], f, spaced), Spaces(f), g, tail, spaced)
         == Exec([], Braced(meta + (f + g), tail), spaced)
  {
    BodySplice(WithCalls([0x7B], meta, spaced), f, g, spaced);
    CallsJoin([0x7B], meta, f + g, spaced);
    ExecBraced(meta + (f + g), tail, spaced);
  }

  /** Adding `f` to an encoder first and encoding `g` later gives, byte for byte, what encoding
      `f` followed by `g` gives, whatever namespaces `f` leaves open, and also if it writes nothing. */
  lemma SpliceReplay(cfg: Config, ent: Entry, f: seq<Call>, g: seq<Call>, spaced: bool)
    ensures EncodeFrom(MetaCalls(cfg, ent), WithCalls([], f, spaced), Spaces(f), g, StackCalls(cfg, ent), spaced)
         == EncodeFrom(MetaCalls(cfg, ent), [], 0, f + g, StackCalls(cfg, ent), spaced)
         == EntryDoc(cfg, ent, f + g, spaced)
  {
    MetaCallsExact(cfg, ent);
    SpliceBraced(MetaCalls(cfg, ent), f, g, StackCalls(cfg, ent), spaced);
    SpliceBraced(MetaCalls(cfg, ent), [], f + g, StackCalls(cfg, ent), spaced);
    assert [] + (f + g) == f + g;
  }

  lemma ExecBraced(calls: seq<Call>, tail: seq<Call>, spaced: bool)
    ensures Exec([], Braced(calls, tail), spaced)
         == WithCalls(WithClosers(WithCalls([0x7B], calls, spaced), Spaces(calls), spaced), tail, spaced) + [0x7D]
  {
    var (body, closers, rest) := (CallOps(calls), Repeat(CloseObject, Spaces(calls)), CallOps(tail));
    ExecConcat([], [OpenObject] + body + closers + rest, [CloseObject], spaced);
    ExecOne(Exec([], [OpenObject] + body + closers + rest, spaced), CloseObject, spaced);
    ExecConcat([], [OpenObject] + body + closers, rest, spaced);
    ExecConcat([], [OpenObject] + body, closers, spaced);
    ExecConcat([], [OpenObject], body, spaced);
    ExecOne([], OpenObject, spaced);
    assert Emit([], OpenObject, spaced) == [0x7B];
  }

  /** The body of writeContext: None when nothing is written. */
  function ContextFrom(fragment: Bytes, spaces: nat, extra: seq<Call>, spaced: bool): Option<Bytes> {
    InBraces(WithClosers(WithCalls(fragment, extra, spaced), spaces + Spaces(extra), spaced))
  }

  function InBraces(text: Bytes): Option<Bytes> { if text == [] then None else Some([0x7B] + text + [0x7D]) }

  /** A console context is left out exactly when no call wrote anything; otherwise it is the
      object holding all that was accumulated and then the extra fields. */
  lemma ContextReplay(f: seq<Call>, g: seq<Call>, spaced: bool)
    ensures ContextFrom(WithCalls([], f, spaced), Spaces(f), g, spaced)
         == if Silent(f + g) then None else Some(Exec([], Braced(f + g, []), spaced))
  {
    ContextUnbraced(f, g, spaced);
    if Silent(f + g) { ContextEmpty(f + g, spaced); } else { ContextFull(f + g, spaced); }
  }

  lemma ContextWith(fragment: Bytes, spaces: nat, extra: seq<Call>, text: Bytes, n: nat, spaced: bool)
    requires Some(WithCalls(fragment, extra, spaced)) == Some(text) && spaces + Spaces(extra) == n
    ensures ContextFrom(fragment, spaces, extra, spaced) == InBraces(WithClosers(text, n, spaced))
  {
  }

  lemma ContextUnbraced(f: seq<Call>, g: seq<Call>, spaced: bool)
    ensures ContextFrom(WithCalls([], f, spaced), Spaces(f), g, spaced) == InBraces(Unbraced(f + g, spaced))
  {
    CallsJoin([], f, g, spaced);
    ContextWith(WithCalls([], f, spaced), Spaces(f), g, WithCalls([], f + g, spaced), Spaces(f + g), spaced);
  }

  /** A context without its braces. */
  function Unbraced(calls: seq<Call>, spaced: bool): Bytes {
    WithClosers(WithCalls([], calls, spaced), Spaces(calls), spaced)
  }

  lemma ContextEmpty(calls: seq<Call>, spaced: bool)
    requires Silent(calls)
    ensures Unbraced(calls, spaced) == []
  {
    KeyFirst(calls);
    SilentWritten(calls, Cursor([], Top));
  }

  lemma ContextFull(calls: seq<Call>, spaced: bool)
    requires !Silent(calls)
    ensures Unbraced(calls, spaced) != []
    ensures [0x7B] + Unbraced(calls, spaced) + [0x7D] == Exec([], Braced(calls, []), spaced)
  {
    var ops := CallOps(calls) + Repeat(CloseObject, Spaces(calls));
    assert ops != [] && !Closes(ops[0]) by { KeyFirst(calls); }
    ContextBraced(ops, spaced);
    ExecConcat([], CallOps(calls), Repeat(CloseObject, Spaces(calls)), spaced);
    ExecConcat([0x7B], CallOps(calls), Repeat(CloseObject, Spaces(calls)), spaced);
    ExecBraced(calls, [], spaced);
  }

  /** A fragment between braces is what writing behind the brace gives. */
  lemma ContextBraced(ops: seq<Op>, spaced: bool)
    requires ops != [] && !Closes(ops[0])
    ensures Exec([0x7B], ops, spaced) == [0x7B] + Exec([], ops, spaced) && Exec([], ops, spaced) != []
  {
    ExecSplice([0x7B], ops, spaced);
    ExecGrows([], ops, spaced);
  }

  /** What a console context denotes, exactly. */
  lemma ContextExact(f: seq<Call>, g: seq<Call>, spaced: bool)
    requires !Silent(f + g)
    ensures var text := ContextFrom(WithCalls([], f, spaced), Spaces(f), g, spaced);
            && text.Some?
            && (Parse(text.value).Some? <==> CallsOk(f + g))
            && (Parse(text.value) == Some(JObject(Fields(f + g))) <==>
                CallsOk(f + g) && Tidy(f + g) && Single(f + g))
  {
    ContextReplay(f, g, spaced);
    BracedExact(f + g, [], spaced);
    assert Fields(f + g) + [] == Fields(f + g);
  }

  // ---- lines ----------------------------------------------------------------------------------------

  lemma {:induction false} WhitespaceLexes(w: Bytes)
    requires forall i | 0 <= i < |w| :: IsWhitespace(w[i])
    ensures Lex(w) == Some([])
    decreases |w|
  {
    if w != [] { WhitespaceLexes(w[1..]); }
  }

  /** A line ending made of whitespace leaves the value alone. */
  lemma LineParses(cfg: Config, ent: Entry, calls: seq<Call>, spaced: bool)
    requires forall i | 0 <= i < |cfg.lineEnding| :: IsWhitespace(cfg.lineEnding[i])
    ensures Parse(EntryLine(cfg, ent, calls, spaced)) == Parse(EntryDoc(cfg, ent, calls, spaced))
  {
    var (doc, end) := (EntryDoc(cfg, ent, calls, spaced), LineEnd(cfg));
    WhitespaceLexes(end);
    TracksNothing();
    TracksExec([], Want(Top), EntryOps(cfg, ent, calls), spaced);
    LexConcat(doc, end);
    assert Lex(doc).value + [] == Lex(doc).value;
  }

  /** With the line ending "\n", an entry holds exactly one newline, its last byte. */
  lemma EntryOneLine(cfg: Config, ent: Entry, calls: seq<Call>, spaced: bool)
    requires cfg.lineEnding == [] || cfg.lineEnding == [NEWLINE]
    ensures var doc := EntryDoc(cfg, ent, calls, spaced);
            EntryLine(cfg, ent, calls, spaced) == doc + [NEWLINE] && NEWLINE !in doc
  {
    ExecOneLine([], EntryOps(cfg, ent, calls), spaced);
  }

  function FirstNewline(s: Bytes): (n: nat)
    ensures n <= |s|
  {
    if s == [] || s[0] == NEWLINE then 0 else 1 + FirstNewline(s[1..])
  }

  lemma {:induction false} FirstNewlineAt(s: Bytes, n: nat)
    requires n < |s| && s[n] == NEWLINE && NEWLINE !in s[..n]
    ensures FirstNewline(s) == n
  {
    if n > 0 {
      assert s[0] in s[..n] && s[..n] == [s[0]] + s[1..][..n - 1];
      FirstNewlineAt(s[1..], n - 1);
    }
  }

  /** Cuts a text behind each newline. */
  function Lines(s: Bytes): seq<Bytes> {
    var n := FirstNewline(s);
    if s == [] then [] else if n == |s| then [s] else [s[..n + 1]] + Lines(s[n + 1..])
  }

  predicate IsLine(s: Bytes) { s != [] && s[|s| - 1] == NEWLINE && NEWLINE !in s[..|s| - 1] }

  /** A log is read back as the entries written to it. */
  lemma {:induction false} LogSplits(entries: seq<Bytes>)
    requires forall e <- entries :: IsLine(e)
    ensures Lines(Sequences.Concat(entries)) == entries
    decreases entries
  {
    if entries != [] {
      var (e, rest) := (entries[0], Sequences.Concat(entries[1..]));
      var s := e + rest;
      assert entries == [e] + entries[1..] && IsLine(e);
      LogSplits(entries[1..]);
      FirstLine(e, rest);
    }
  }

  lemma FirstLine(e: Bytes, rest: Bytes)
    requires IsLine(e)
    ensures FirstNewline(e + rest) == |e| - 1 && (e + rest)[..|e|] == e && (e + rest)[|e|..] == rest
  {
    assert (e + rest)[..|e| - 1] == e[..|e| - 1];
    FirstNewlineAt(e + rest, |e| - 1);
  }
}
