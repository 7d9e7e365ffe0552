/** Errors written as fields: the message, the verbose text of rich errors, and the causes of
    error groups, recursively. The text decodes back to the tree of errors in normal form. */
module ErrorEncoding {
  import Sequences
  import opened Utf8
  import opened JsonText
  import opened EncoderOps
  import opened EncoderCalls
  import opened EncoderScope
  import opened EntryText
  import opened JsonEncoder

  /** An error as the type switch of encodeError sees it: an error group, otherwise an error
      with a verbose format, otherwise any other. A cause may be nil. */
  datatype Err =
    | Plain(msg: Bytes)
    | Rich(msg: Bytes, verbose: Bytes)
    | Group(msg: Bytes, causes: seq<Option<Err>>)

  /** "error", "Verbose" and "Causes" */
  const ERROR: Bytes := [0x65, 0x72, 0x72, 0x6F, 0x72]
  const VERBOSE: Bytes := [0x56, 0x65, 0x72, 0x62, 0x6F, 0x73, 0x65]
  const CAUSES: Bytes := [0x43, 0x61, 0x75, 0x73, 0x65, 0x73]

  // ---- the calls ------------------------------------------------------------------------

  function ErrorCalls(key: Bytes, err: Err): seq<Call>
    decreases err, 0
  {
    [Add(key, Prim(PText(err.msg)))] +
    match err
    case Plain(_) => []
    case Rich(msg, verbose) => if verbose != msg then [Add(key + VERBOSE, Prim(PText(verbose)))] else []
    case Group(_, causes) => [Add(key + CAUSES, List(CauseElems(causes)))]
  }

  function CauseElems(causes: seq<Option<Err>>): seq<Elem>
    decreases causes, 1
  {
    if causes == [] then []
    else CauseElem(causes[0]) + CauseElems(causes[1..])
  }

  function CauseElem(cause: Option<Err>): seq<Elem>
    decreases cause, 0
  {
    if cause.None? then [] else [Object(ErrorCalls(ERROR, cause.value))]
  }

  // ---- the normal form --------------------------------------------------------------------

  /** Nil causes dropped, a verbose text kept only where it differs from the message, and every
      text with U+FFFD for bytes that are not UTF-8. */
  function Normal(err: Err): Err
    decreases err, 0
  {
    match err
    case Plain(msg) => Plain(Sanitize(msg))
    case Rich(msg, verbose) => if verbose != msg then Rich(Sanitize(msg), Sanitize(verbose)) else Plain(Sanitize(msg))
    case Group(msg, causes) => Group(Sanitize(msg), NormalCauses(causes))
  }

  function NormalCauses(causes: seq<Option<Err>>): seq<Option<Err>>
    decreases causes, 1
  {
    if causes == [] then []
    else NormalCause(causes[0]) + NormalCauses(causes[1..])
  }

  function NormalCause(cause: Option<Err>): seq<Option<Err>>
    decreases cause, 0
  {
    if cause.None? then [] else [Some(Normal(cause.value))]
  }

  /** Every text is UTF-8, every verbose text differs from its message, and no cause is nil. */
  predicate Clean(err: Err)
    decreases err, 0
  {
    match err
    case Plain(msg) => Valid(msg)
    case Rich(msg, verbose) => Valid(msg) && Valid(verbose) && verbose != msg
    case Group(msg, causes) => Valid(msg) && CleanCauses(causes)
  }

  predicate CleanCauses(causes: seq<Option<Err>>)
    decreases causes, 1
  {
    causes == [] || (CleanCause(causes[0]) && CleanCauses(causes[1..]))
  }

  predicate CleanCause(cause: Option<Err>)
    decreases cause, 0
  {
    cause.Some? && Clean(cause.value)
  }

  /** The normal form loses nothing exactly when there is nothing to lose. */
  lemma {:induction false} NormalExact(err: Err)
    ensures Normal(err) == err <==> Clean(err)
    decreases err, 0
  {
    SanitizeValid(err.msg);
    match err
    case Plain(_) =>
    case Rich(_, verbose) => SanitizeValid(verbose);
    case Group(_, causes) => NormalCausesExact(causes);
  }

  lemma {:induction false} NormalCausesExact(causes: seq<Option<Err>>)
    ensures |NormalCauses(causes)| <= |causes| && (NormalCauses(causes) == causes <==> CleanCauses(causes))
    decreases causes, 1
  {
    if causes != [] {
      NormalCauseExact(causes[0]);
      NormalCausesExact(causes[1..]);
      assert causes == [causes[0]] + causes[1..];
      Sequences.SameParts([causes[0]], causes[1..], NormalCause(causes[0]), NormalCauses(causes[1..]));
    }
  }

  lemma {:induction false} NormalCauseExact(cause: Option<Err>)
    ensures |NormalCause(cause)| <= 1 && (NormalCause(cause) == [cause] <==> CleanCause(cause))
    decreases cause, 0
  {
    if cause.Some? { NormalExact(cause.value); }
  }

  // ---- the decoder --------------------------------------------------------------------------

  function DecodeError(key: Bytes, ms: seq<Member>): Option<Err>
    decreases ms, 1
  {
    if ms == [] || ms[0].name != key || !ms[0].value.JString? then None
    else if |ms| == 1 then Some(Plain(ms[0].value.text))
    else if |ms| != 2 then None
    else if ms[1].name == key + VERBOSE && ms[1].value.JString? then Some(Rich(ms[0].value.text, ms[1].value.text))
    else if ms[1].name == key + CAUSES && ms[1].value.JArray? then
      var causes := DecodeCauses(ms[1].value.items);
      if causes.None? then None else Some(Group(ms[0].value.text, causes.value))
    else None
  }

  function DecodeCauses(items: seq<Json>): Option<seq<Option<Err>>>
    decreases items, 1
  {
    if items == [] then Some([])
    else if !items[0].JObject? then None
    else
      var first := DecodeError(ERROR, items[0].members);
      var rest := DecodeCauses(items[1..]);
      if first.None? || rest.None? then None else Some([Some(first.value)] + rest.value)
  }

  // ---- the round trip -------------------------------------------------------------------------

  lemma {:induction false} ErrorCallsFlat(key: Bytes, err: Err)
    ensures var cs := ErrorCalls(key, err); CallsOk(cs) && Flat(cs) && Single(cs)
    decreases err, 0
  {
    var first := [Add(key, Prim(PText(err.msg)))];
    WhenCalls(true, key, Prim(PText(err.msg)));
    match err
    case Plain(_) =>
      assert first + [] == first;
    case Rich(msg, verbose) =>
      if verbose != msg {
        WhenCalls(true, key + VERBOSE, Prim(PText(verbose)));
        FlatJoin(first, [Add(key + VERBOSE, Prim(PText(verbose)))]);
      } else {
        assert first + [] == first;
      }
    case Group(_, causes) =>
      CauseElemsFlat(causes);
      ListCallFlat(key + CAUSES, CauseElems(causes));
      FlatJoin(first, [Add(key + CAUSES, List(CauseElems(causes)))]);
  }

  lemma ListCallFlat(k: Bytes, es: seq<Elem>)
    requires ListOk(es) && SingleList(es)
    ensures var cs := [Add(k, List(es))]; CallsOk(cs) && Flat(cs) && Single(cs)
  {
    var cs := [Add(k, List(es))];
    ListOkSpaces(es);
    assert cs[1..] == [] && MemberOk(List(es)) && CallOk(cs[0]);
    assert CallSpaces(cs[0]) == ElemSpaces(List(es)) == 0;
  }

  lemma {:induction false} CauseElemsFlat(causes: seq<Option<Err>>)
    ensures ListOk(CauseElems(causes)) && SingleList(CauseElems(causes))
    decreases causes, 1
  {
    if causes != [] {
      CauseElemsFlat(causes[1..]);
      var rest := CauseElems(causes[1..]);
      CauseElemFlat(causes[0]);
      if causes[0].Some? {
        assert (CauseElem(causes[0]) + rest)[1..] == rest;
      } else {
        assert CauseElem(causes[0]) + rest == rest;
      }
    }
  }

  lemma {:induction false} CauseElemFlat(cause: Option<Err>)
    ensures cause.Some? ==> ItemOk(CauseElem(cause)[0]) && SingleElem(CauseElem(cause)[0])
    decreases cause, 0
  {
    if cause.Some? { ErrorCallsFlat(ERROR, cause.value); }
  }

  /** What the calls denote decodes to the normal form. */
  lemma {:induction false} ErrorDecodes(key: Bytes, err: Err)
    ensures DecodeError(Sanitize(key), Fields(ErrorCalls(key, err))) == Some(Normal(err))
    decreases err, 0
  {
    ErrorFields(key, err);
    if err.Group? {
      CausesDecode(err.causes);
      GroupDecodes(Sanitize(key), Sanitize(err.msg), ListValues(CauseElems(err.causes)));
    }
  }

  /** The members the calls stand for. */
  lemma ErrorFields(key: Bytes, err: Err)
    ensures var first := Member(Sanitize(key), JString(Sanitize(err.msg)));
            Fields(ErrorCalls(key, err)) ==
            match err
            case Plain(_) => [first]
            case Rich(msg, verbose) =>
              if verbose != msg then [first, Member(Sanitize(key) + VERBOSE, JString(Sanitize(verbose)))] else [first]
            case Group(_, causes) => [first, Member(Sanitize(key) + CAUSES, JArray(ListValues(CauseElems(causes))))]
  {
    var first := Add(key, Prim(PText(err.msg)));
    match err
    case Plain(_) =>
      OneField(first);
    case Rich(msg, verbose) =>
      SanitizeSuffix(key, VERBOSE);
      if verbose != msg { TwoFields(first, Add(key + VERBOSE, Prim(PText(verbose)))); } else { OneField(first); }
    case Group(_, causes) =>
      SanitizeSuffix(key, CAUSES);
      TwoFields(first, Add(key + CAUSES, List(CauseElems(causes))));
  }

  lemma GroupDecodes(key: Bytes, msg: Bytes, items: seq<Json>)
    ensures DecodeError(key, [Member(key, JString(msg)), Member(key + CAUSES, JArray(items))])
         == if DecodeCauses(items).None? then None else Some(Group(msg, DecodeCauses(items).value))
  {
    assert (key + CAUSES)[|key|] == CAUSES[0] && (key + VERBOSE)[|key|] == VERBOSE[0];
  }

  lemma OneField(a: Call)
    requires a.Add? && ElemValues(a.elem) != []
    ensures Fields([a] + []) == [Member(Sanitize(a.key), ElemValues(a.elem)[0])]
  {
    assert ([a] + [])[1..] == [];
  }

  lemma TwoFields(a: Call, b: Call)
    requires a.Add? && ElemValues(a.elem) != [] && b.Add? && ElemValues(b.elem) != []
    ensures Fields([a] + [b])
         == [Member(Sanitize(a.key), ElemValues(a.elem)[0]), Member(Sanitize(b.key), ElemValues(b.elem)[0])]
  {
    assert ([a] + [b])[1..] == [b] && [b][1..] == [];
    var (m, n) := (Member(Sanitize(a.key), ElemValues(a.elem)[0]), Member(Sanitize(b.key), ElemValues(b.elem)[0]));
    assert Fields([b]) == [n] + [] == [n];
    assert Fields([a] + [b]) == [m] + [n];
  }

  lemma {:induction false} CausesDecode(causes: seq<Option<Err>>)
    ensures DecodeCauses(ListValues(CauseElems(causes))) == Some(NormalCauses(causes))
    decreases causes, 1
  {
    if causes != [] {
      CausesDecode(causes[1..]);
      CauseDecodes(causes[0]);
      var (rest, c) := (CauseElems(causes[1..]), causes[0]);
      if c.Some? {
        ObjectFirst(ErrorCalls(ERROR, c.value), rest);
        DecodeFirst(Fields(ErrorCalls(ERROR, c.value)), ListValues(rest));
      } else {
        assert CauseElem(c) + rest == rest && NormalCause(c) + NormalCauses(causes[1..]) == NormalCauses(causes[1..]);
      }
    }
  }

  lemma ObjectFirst(cs: seq<Call>, rest: seq<Elem>)
    ensures ListValues([Object(cs)] + rest) == [JObject(Fields(cs))] + ListValues(rest)
  {
    assert ([Object(cs)] + rest)[1..] == rest;
  }

  lemma DecodeFirst(ms: seq<Member>, rest: seq<Json>)
    requires DecodeError(ERROR, ms).Some? && DecodeCauses(rest).Some?
    ensures DecodeCauses([JObject(ms)] + rest) == Some([Some(DecodeError(ERROR, ms).value)] + DecodeCauses(rest).value)
  {
    assert ([JObject(ms)] + rest)[1..] == rest;
  }

  lemma {:induction false} CauseDecodes(cause: Option<Err>)
    ensures cause.Some? ==> DecodeError(ERROR, Fields(ErrorCalls(ERROR, cause.value))) == Some(Normal(cause.value))
    decreases cause, 0
  {
    if cause.Some? {
      ErrorDecodes(ERROR, cause.value);
      SanitizeError();
    }
  }

  lemma SanitizeError()
    ensures Sanitize(ERROR) == ERROR
  {
    AsciiValid(ERROR);
    SanitizeValid(ERROR);
  }

  /** For every finite tree of errors: the object written for it is a JSON text, and decodes back
      to the tree in normal form. */
  lemma ErrorRoundTrip(key: Bytes, err: Err, spaced: bool)
    ensures var text := Parse(Exec([], Braced(ErrorCalls(key, err), []), spaced));
            && text.Some? && text.value.JObject?
            && DecodeError(Sanitize(key), text.value.members) == Some(Normal(err))
  {
    var cs := ErrorCalls(key, err);
    ErrorCallsFlat(key, err);
    BracedExact(cs, [], spaced);
    assert Fields(cs) + [] == Fields(cs);
    ErrorDecodes(key, err);
  }

  // ---- the methods -------------------------------------------------------------------------------

  /** errArrayElem: a recycled holder of one error. */
  class ErrElem {
    var err: Option<Err>

    constructor ()
      ensures err == None
    {
      err := None;
    }
  }

  class ElemPool {
    var free: set<ErrElem>

    constructor ()
      ensures Valid()
    {
      free := {};
    }

    /** Holders in the pool hold nothing. */
    ghost predicate Valid()
      reads this, free
    {
      forall e <- free :: e.err == None
    }

    method NewErrArrayElem(err: Err) returns (e: ErrElem)
      requires Valid()
      modifies this, free
      ensures Valid() && (e in old(free) || fresh(e)) && free == old(free) - {e}
      ensures e.err == Some(err)
    {
      if * {
        e := new ErrElem();
      } else if free == {} {
        e := new ErrElem();
      } else {
        e :| e in free;
        free := free - {e};
      }
      e.err := Some(err);
    }

    method Free(e: ErrElem)
      requires Valid()
      modifies this, e
      ensures Valid() && free == old(free) + {e}
    {
      e.err := None;
      free := free + {e};
    }
  }

  /** encodeError */
  method EncodeError(enc: JsonEncoder, pool: ElemPool, key: Bytes, err: Err)
    requires enc.buf != null && pool.Valid()
    modifies enc.buf, pool, pool.free
    ensures pool.Valid() && old(pool.free) <= pool.free && fresh(pool.free - old(pool.free))
    ensures Wrote(old(enc.buf.data), ErrorCalls(key, err), enc.spaced) == Some(enc.buf.data)
    decreases err, 0
  {
    ghost var b := enc.buf.data;
    enc.AddText(key, err.msg);
    ghost var b1 := enc.buf.data;
    ghost var more: seq<Call> := [];
    match err {
      case Group(_, causes) =>
        more := [Add(key + CAUSES, List(CauseElems(causes)))];
        enc.AddKey(key + CAUSES);
        AppendErrArray(enc, pool, causes);
        CausesWritten(b1, key + CAUSES, CauseElems(causes), enc.spaced);
      case Rich(msg, verbose) =>
        if verbose != msg {
          more := [Add(key + VERBOSE, Prim(PText(verbose)))];
          enc.AddText(key + VERBOSE, verbose);
        }
      case Plain(_) =>
    }
    WroteMore(b, [Add(key, Prim(PText(err.msg)))], b1, more, enc.spaced);
  }

  /** AppendArray of an errArray */
  method AppendErrArray(enc: JsonEncoder, pool: ElemPool, errs: seq<Option<Err>>)
    requires enc.buf != null && pool.Valid()
    modifies enc.buf, pool, pool.free
    ensures pool.Valid() && old(pool.free) <= pool.free && fresh(pool.free - old(pool.free))
    ensures enc.buf.data == Exec(old(enc.buf.data), [OpenArray] + ListOps(CauseElems(errs)) + [CloseArray], enc.spaced)
    decreases errs, 2
  {
    ghost var b := enc.buf.data;
    enc.AddElementSeparator();
    enc.buf.Append([0x5B]);
    MarshalErrArray(enc, pool, errs);
    enc.buf.Append([0x5D]);
    ExecBracketed(b, OpenArray, ListOps(CauseElems(errs)), CloseArray, enc.spaced);
  }

  /** errArray.MarshalLogArray */
  method MarshalErrArray(enc: JsonEncoder, pool: ElemPool, errs: seq<Option<Err>>)
    requires enc.buf != null && pool.Valid()
    modifies enc.buf, pool, pool.free
    ensures pool.Valid() && old(pool.free) <= pool.free && fresh(pool.free - old(pool.free))
    ensures CausesFrom(old(enc.buf.data), errs, enc.spaced) == Some(enc.buf.data)
    decreases errs, 1
  {
    ghost var goal := CausesFrom(enc.buf.data, errs, enc.spaced);
    var i := 0;
    assert errs[0..] == errs;
    while i < |errs|
      invariant 0 <= i <= |errs|
      invariant pool.Valid() && old(pool.free) <= pool.free && fresh(pool.free - old(pool.free))
      invariant CausesFrom(enc.buf.data, errs[i..], enc.spaced) == goal
    {
      MarshalTurn(enc, pool, errs, i);
      i := i + 1;
    }
  }

  /** One turn of that loop. */
  method MarshalTurn(enc: JsonEncoder, pool: ElemPool, errs: seq<Option<Err>>, i: nat)
    requires enc.buf != null && pool.Valid() && i < |errs|
    modifies enc.buf, pool, pool.free
    ensures pool.Valid() && old(pool.free) <= pool.free && fresh(pool.free - old(pool.free))
    ensures CausesFrom(enc.buf.data, errs[i + 1..], enc.spaced) == CausesFrom(old(enc.buf.data), errs[i..], enc.spaced)
    decreases errs, 0
  {
    CauseTurn(enc.buf.data, errs, i, enc.spaced);
    if errs[i] != None {
      AppendCause(enc, pool, errs[i]);
    }
  }

  /** The same for a cause that is not nil. */
  method AppendCause(enc: JsonEncoder, pool: ElemPool, cause: Option<Err>)
    requires enc.buf != null && pool.Valid() && cause.Some?
    modifies enc.buf, pool, pool.free
    ensures pool.Valid() && old(pool.free) <= pool.free && fresh(pool.free - old(pool.free))
    ensures CauseFrom(old(enc.buf.data), cause.value, enc.spaced) == Some(enc.buf.data)
    decreases cause, 2
  {
    var el := pool.NewErrArrayElem(cause.value);
    AppendErrObject(enc, pool, el, cause.value);
    assert el.err == cause;
    pool.Free(el);
  }

  /** The buffer once the objects for `errs` are written behind `b`. */
  ghost function CausesFrom(b: Bytes, errs: seq<Option<Err>>, spaced: bool): Option<Bytes> {
    Some(Exec(b, ListOps(CauseElems(errs)), spaced))
  }

  ghost function CauseFrom(b: Bytes, err: Err, spaced: bool): Option<Bytes> {
    Some(Exec(b, ElemOps(Object(ErrorCalls(ERROR, err))), spaced))
  }

  /** AppendObject of an errArrayElem. The recursion takes other holders from the pool, so the
      error in this one is still there when it returns. */
  method AppendErrObject(enc: JsonEncoder, pool: ElemPool, el: ErrElem, ghost err: Err)
    requires enc.buf != null && pool.Valid() && el !in pool.free && el.err == Some(err)
    modifies enc.buf, pool, pool.free
    ensures pool.Valid() && old(pool.free) <= pool.free && fresh(pool.free - old(pool.free))
    ensures el.err == old(el.err) && el !in pool.free
    ensures CauseFrom(old(enc.buf.data), err, enc.spaced) == Some(enc.buf.data)
    decreases err, 1
  {
    ghost var b := enc.buf.data;
    enc.AddElementSeparator();
    enc.buf.Append([0x7B]);
    EncodeError(enc, pool, ERROR, el.err.value);
    enc.buf.Append([0x7D]);
    ExecBracketed(b, OpenObject, CallOps(ErrorCalls(ERROR, err)), CloseObject, enc.spaced);
  }

  lemma CausesWritten(b: Bytes, k: Bytes, es: seq<Elem>, spaced: bool)
    ensures Wrote(b, [Add(k, List(es))], spaced)
         == Some(Exec(Emit(b, Key(k), spaced), [OpenArray] + ListOps(es) + [CloseArray], spaced))
  {
    WroteOne(b, Add(k, List(es)), spaced);
    ExecConcat(b, [Key(k)], ElemOps(List(es)), spaced);
    ExecOne(b, Key(k), spaced);
  }

  lemma CauseTurn(b: Bytes, errs: seq<Option<Err>>, i: nat, spaced: bool)
    requires i < |errs|
    ensures var next := if errs[i].None? then b else CauseFrom(b, errs[i].value, spaced).value;
            CausesFrom(b, errs[i..], spaced) == CausesFrom(next, errs[i + 1..], spaced)
  {
    var rest := CauseElems(errs[i + 1..]);
    assert errs[i..][1..] == errs[i + 1..];
    if errs[i].Some? {
      var e := Object(ErrorCalls(ERROR, errs[i].value));
      assert CauseElems(errs[i..]) == [e] + rest && ([e] + rest)[1..] == rest;
      ExecConcat(b, ElemOps(e), ListOps(rest), spaced);
    } else {
      assert CauseElems(errs[i..]) == rest;
    }
  }
}
