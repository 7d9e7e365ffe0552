/** Where the exact conditions fail: callbacks of this repository that append several strings,
    and namespaces opened inside a value. */
module EncoderLimits {
  import opened Utf8
  import opened JsonText
  import opened EncoderOps
  import opened EncoderCalls
  import opened EncoderScope
  import opened EntryText

  const SLASH: byte := 0x2F

  /** strings.LastIndexByte(s, '/') */
  function LastSlash(s: Bytes): (i: int)
    ensures -1 <= i < |s|
    ensures i >= 0 ==> s[i] == SLASH && SLASH !in s[i + 1..]
    ensures i == -1 ==> SLASH !in s
  {
    if s == [] then -1
    else if s[|s| - 1] == SLASH then |s| - 1
    else
      var i := LastSlash(s[..|s| - 1]);
      assert s == s[..|s| - 1] + [s[|s| - 1]];
      assert i >= 0 ==> s[i + 1..] == s[..|s| - 1][i + 1..] + [s[|s| - 1]];
      i
  }

  /** "undefined", ":", " " and "()" */
  const UNDEFINED: Bytes := [0x75, 0x6E, 0x64, 0x65, 0x66, 0x69, 0x6E, 0x65, 0x64]
  const PARENS: Bytes := [0x28, 0x29]

  /** MyCallerEncode, by the primitives it appends. */
  function MyCallerEncode(caller: Option<Caller>, funcName: Bytes): seq<Prim> {
    (if caller.None? then [PText(UNDEFINED)]
     else
       var (c, i) := (caller.value, LastSlash(caller.value.file));
       if i == -1 then [PText(c.fullPath)]
       else [PText(c.file[i + 1..]), PText([COLON]), PRaw(c.line), PText([SPACE])])
    + [PText(if LastSlash(funcName) == -1 then funcName else funcName[LastSlash(funcName) + 1..]), PText(PARENS)]
  }

  /** The console configuration's EncodeTime: "[", the formatted time, "]". */
  function BracketedTime(formatted: Bytes): seq<Prim> { [PText([0x5B]), PText(formatted), PText([0x5D])] }

  /** MyCallerEncode is made for the console: in a JSON entry it breaks the text, whatever the caller. */
  lemma CallerBreaksEntry(cfg: Config, ent: Entry, calls: seq<Call>, spaced: bool)
    requires HasCaller(cfg, ent)
    requires cfg.encodeCaller(ent.caller.value) == MyCallerEncode(ent.caller, ent.caller.value.funcName)
    ensures Parse(EntryDoc(cfg, ent, calls, spaced)) == None
  {
    assert |MyCallerEncode(ent.caller, ent.caller.value.funcName)| >= 3;
    EntryExact(cfg, ent, calls, spaced);
  }

  lemma {:induction false} OkEach(cs: seq<Call>, i: nat)
    requires i < |cs| && CallsOk(cs)
    ensures CallOk(cs[i])
  {
    if i > 0 { OkEach(cs[1..], i - 1); }
  }

  /** The console hands its configuration to the JSON encoder of the context, so a single time
      field makes the context of a line, whatever else it holds, no JSON. */
  lemma TimeFieldBreaksContext(f: seq<Call>, g: seq<Call>, i: nat, key: Bytes, formatted: Bytes, nanos: CompactJson)
    requires i < |f + g| && (f + g)[i] == Add(key, Stamp(BracketedTime(formatted), PRaw(nanos)))
    ensures var text := ContextFrom(Exec([], CallOps(f), true), Spaces(f), g, true);
            text.Some? && Parse(text.value) == None
  {
    assert !Silent(f + g) by { assert (f + g)[i] in f + g; }
    ContextExact(f, g, true);
    assert !CallOk((f + g)[i]);
    if CallsOk(f + g) { OkEach(f + g, i); }
  }

  /** What AppendTime is given for each time of an array. */
  function TimeElems(times: seq<Bytes>, nanos: CompactJson): seq<Elem> {
    if times == [] then [] else [Stamp(BracketedTime(times[0]), PRaw(nanos))] + TimeElems(times[1..], nanos)
  }

  /** Three strings for each time. */
  function InThree(times: seq<Bytes>): (items: seq<Json>)
    ensures |items| == 3 * |times|
  {
    if times == [] then []
    else [JString([0x5B]), JString(Sanitize(times[0])), JString([0x5D])] + InThree(times[1..])
  }

  lemma {:induction false} TimesGood(times: seq<Bytes>, nanos: CompactJson)
    ensures var es := TimeElems(times, nanos);
            && ListOk(es) && Some(ListSpread(es)) == Some(InThree(times)) && |ListValues(es)| == |times|
            && (SingleList(es) <==> times == [])
  {
    if times != [] {
      var (first, rest) := (Stamp(BracketedTime(times[0]), PRaw(nanos)), TimeElems(times[1..], nanos));
      TimesGood(times[1..], nanos);
      assert ([first] + rest)[1..] == rest;
      BracketsValid();
      assert ElemSpread(first) == [JString([0x5B]), JString(Sanitize(times[0])), JString([0x5D])];
    }
  }

  lemma BracketsValid()
    ensures Sanitize([0x5B]) == [0x5B] && Sanitize([0x5D]) == [0x5D]
  {
    AsciiValid([0x5B]);
    SanitizeValid([0x5B]);
    AsciiValid([0x5D]);
    SanitizeValid([0x5D]);
  }

  lemma ListAlone(key: Bytes, es: seq<Elem>)
    requires ListOk(es)
    ensures var cs := [Add(key, List(es))];
            && CallsOk(cs) && Tidy(cs) && Spaces(cs) == 0 && (Single(cs) <==> SingleList(es))
            && Some(Spread(cs)) == Some([Member(Sanitize(key), JArray(ListSpread(es)))])
  {
    var cs := [Add(key, List(es))];
    assert cs[1..] == [];
    ListOkSpaces(es);
    assert MemberOk(List(es)) && CallOk(cs[0]);
    assert CallSpaces(cs[0]) == ElemSpaces(List(es)) == 0;
    assert cs[0].elem == List(es) && TidyElem(List(es));
    assert Single(cs) <==> SingleElem(List(es));
    assert ElemSpread(List(es)) == [JArray(ListSpread(es))];
    assert Spread(cs) == SpreadOf(key, List(es)) + Spread([]) == SpreadOf(key, List(es));
  }

  lemma ListDoc(key: Bytes, es: seq<Elem>, spaced: bool)
    requires ListOk(es)
    ensures var cs := [Add(key, List(es))];
            var doc := Parse(Exec([], Braced(cs, []), spaced));
            && doc == Some(JObject([Member(Sanitize(key), JArray(ListSpread(es)))]))
            && (doc == Some(JObject(Fields(cs))) <==> SingleList(es))
  {
    var cs := [Add(key, List(es))];
    ListAlone(key, es);
    BracedExact(cs, [], spaced);
    TopTidy(cs);
    assert TopMembers(cs) + Spread([]) == TopMembers(cs) && Fields(cs) + Fields([]) == Fields(cs);
  }

  /** An array of times in such a context is JSON, but has three strings for each time. */
  lemma TimesSplit(key: Bytes, times: seq<Bytes>, nanos: CompactJson, spaced: bool)
    ensures var cs := [Add(key, List(TimeElems(times, nanos)))];
            var doc := Parse(Exec([], Braced(cs, []), spaced));
            && doc == Some(JObject([Member(Sanitize(key), JArray(InThree(times)))]))
            && |ListValues(TimeElems(times, nanos))| == |times|
            && (doc == Some(JObject(Fields(cs))) <==> times == [])
  {
    TimesGood(times, nanos);
    ListDoc(key, TimeElems(times, nanos), spaced);
  }

  /** A namespace opened by an object in an array is closed by the object's own brace, and the
      array's bracket then meets an open object. */
  lemma NamespaceInArray(key: Bytes, name: Bytes, spaced: bool)
    ensures Parse(Exec([], Braced([Add(key, List([Object([OpenNamespace(name)])]))], []), spaced)) == None
  {
    var inner := [OpenNamespace(name)];
    var es := [Object(inner)];
    var cs := [Add(key, List(es))];
    assert inner[1..] == [] && Spaces(inner) == 1;
    assert !ItemOk(es[0]) && !ListOk(es) && !MemberOk(List(es)) && !CallOk(cs[0]);
    BracedExact(cs, [], spaced);
  }

  /** A namespace opened inside an object swallows the field added behind that object. */
  lemma NamespaceSwallows(a: Bytes, n: Bytes, b: Bytes, v: Bytes, spaced: bool)
    ensures var cs := [Add(a, Object([OpenNamespace(n)])), Add(b, Prim(PText(v)))];
            var (swallowed, empty) := (Member(Sanitize(b), JString(Sanitize(v))), JObject([]));
            && Fields(cs) == [Member(Sanitize(a), JObject([Member(Sanitize(n), empty)])), swallowed]
            && Parse(Exec([], Braced(cs, []), spaced))
               == Some(JObject([Member(Sanitize(a), JObject([Member(Sanitize(n), empty), swallowed]))]))
  {
    var inner := [OpenNamespace(n)];
    var (first, second) := (Add(a, Object(inner)), Add(b, Prim(PText(v))));
    var (start, empty) := (Cursor([], Top), JObject([]));
    OneByOne(OpenNamespace(n), [], Enter(start, Sanitize(a)));
    OneByOne(first, [second], start);
    OneByOne(second, [], WrittenOne(first, start));
    var swallowed := Member(Sanitize(b), JString(Sanitize(v)));
    assert Fields([second]) == [swallowed] + [] == [swallowed];
    assert Fields(inner) == [Member(Sanitize(n), empty)];
    var end := WrittenOne(second, WrittenOne(first, start));
    assert end.members == [Member(Sanitize(n), empty), swallowed];
    assert LeaveAll(end, 1) == Leave(LeaveAll(end, 0));
    var cs := [first, second];
    assert [first] + [second] == cs && cs[1..] == [second];
    assert FieldOf(a, Object(inner)) == [Member(Sanitize(a), JObject(Fields(inner)))];
    assert Fields(cs) == FieldOf(a, Object(inner)) + Fields([second]);
    assert CallsOk(inner) && CallOk(first) && CallOk(second) && CallsOk([second]) && CallsOk(cs);
    assert Spaces(inner) == 1 && CallSpaces(first) == ElemSpaces(Object(inner)) && CallSpaces(second) == 0;
    assert Written(cs, start) == end && Spaces(cs) == 1;
    assert TopMembers(cs) == [Member(Sanitize(a), JObject(end.members))];
    BracedExact(cs, [], spaced);
    assert TopMembers(cs) + Fields([]) == TopMembers(cs);
  }

  lemma OneByOne(c: Call, rest: seq<Call>, at: Cursor)
    ensures var cs := [c] + rest;
            && Written(cs, at) == Written(rest, WrittenOne(c, at))
            && Spaces(cs) == CallSpaces(c) + Spaces(rest)
            && (CallsOk(cs) <==> CallOk(c) && CallsOk(rest))
            && ([c] + [] == [c])
  {
    assert ([c] + rest)[1..] == rest;
  }
}
