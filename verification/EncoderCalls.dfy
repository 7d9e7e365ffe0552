/** The calls that marshallers and log fields make on the encoder, the writes they amount to,
    and the JSON value those writes denote. */
module EncoderCalls {
  import opened Utf8
  import opened JsonText
  import opened EncoderOps

  /** A value appended by one primitive method: a string, or an unquoted token. */
  datatype Prim = PText(text: Bytes) | PRaw(json: CompactJson)

  /** What an Append method is given.
      `Stamp`: a value handed to a configured callback, with the primitives the callback appends
      and the fallback the encoder writes when it appends none.
      `List` and `Object`: the calls of an array or object marshaller; a marshaller that fails
      half-way has simply made fewer calls.
      `Reflected`: the text of the reflection-based marshaller, or None when it failed. */
  datatype Elem =
    | Prim(prim: Prim)
    | Stamp(prims: seq<Prim>, fallback: Prim)
    | List(elems: seq<Elem>)
    | Object(calls: seq<Call>)
    | Reflected(result: Option<CompactJson>)

  datatype Call = Add(key: Bytes, elem: Elem) | OpenNamespace(key: Bytes)

  // ---- the writes of a call --------------------------------------------------------------

  function PrimOp(p: Prim): Op { match p case PText(s) => Text(s) case PRaw(t) => Raw(t) }

  function PrimOps(ps: seq<Prim>): seq<Op> { seq(|ps|, i requires 0 <= i < |ps| => PrimOp(ps[i])) }

  /** What a callback leaves behind: its primitives, or the fallback. */
  function Stamped(ps: seq<Prim>, fallback: Prim): seq<Prim> { if ps == [] then [fallback] else ps }

  /** AppendReflected and AddReflected write nothing, not even the key, on an error. */
  predicate Skipped(e: Elem) { e.Reflected? && e.result.None? }

  function ElemOps(e: Elem): seq<Op>
    decreases e, 0
  {
    match e
    case Prim(p) => [PrimOp(p)]
    case Stamp(ps, fallback) => PrimOps(Stamped(ps, fallback))
    case List(es) => [OpenArray] + ListOps(es) + [CloseArray]
    case Object(cs) => [OpenObject] + CallOps(cs) + [CloseObject]
    case Reflected(r) => if r.None? then [] else [Raw(r.value)]
  }

  function ListOps(es: seq<Elem>): seq<Op>
    decreases es, 1
  {
    if es == [] then [] else ElemOps(es[0]) + ListOps(es[1..])
  }

  function OneCallOps(c: Call): seq<Op>
    decreases c, 0
  {
    match c
    case Add(k, e) => if Skipped(e) then [] else [Key(k)] + ElemOps(e)
    case OpenNamespace(k) => [Key(k), OpenObject]
  }

  function CallOps(cs: seq<Call>): seq<Op>
    decreases cs, 1
  {
    if cs == [] then [] else OneCallOps(cs[0]) + CallOps(cs[1..])
  }

  /** How often OpenNamespace is called, at any depth: the encoder's openNamespaces counter. */
  function ElemSpaces(e: Elem): nat
    decreases e, 0
  {
    match e case List(es) => ListSpaces(es) case Object(cs) => Spaces(cs) case _ => 0
  }

  function ListSpaces(es: seq<Elem>): nat
    decreases es, 1
  {
    if es == [] then 0 else ElemSpaces(es[0]) + ListSpaces(es[1..])
  }

  function CallSpaces(c: Call): nat
    decreases c, 0
  {
    match c case Add(_, e) => ElemSpaces(e) case OpenNamespace(_) => 1
  }

  function Spaces(cs: seq<Call>): nat
    decreases cs, 1
  {
    if cs == [] then 0 else CallSpaces(cs[0]) + Spaces(cs[1..])
  }

  // ---- which calls a JSON text can hold --------------------------------------------------------

  /** Under a key, a callback may append at most one primitive; in an array, an object may
      open no namespace. */
  predicate MemberOk(e: Elem)
    decreases e, 0
  {
    match e
    case Stamp(ps, _) => |ps| <= 1
    case List(es) => ListOk(es)
    case Object(cs) => CallsOk(cs)
    case _ => true
  }

  predicate ItemOk(e: Elem)
    decreases e, 0
  {
    match e
    case List(es) => ListOk(es)
    case Object(cs) => CallsOk(cs) && Spaces(cs) == 0
    case _ => true
  }

  predicate ListOk(es: seq<Elem>)
    decreases es, 1
  {
    es == [] || (ItemOk(es[0]) && ListOk(es[1..]))
  }

  predicate CallOk(c: Call)
    decreases c, 0
  {
    match c case Add(_, e) => MemberOk(e) case OpenNamespace(_) => true
  }

  predicate CallsOk(cs: seq<Call>)
    decreases cs, 1
  {
    cs == [] || (CallOk(cs[0]) && CallsOk(cs[1..]))
  }

  // ---- the value intended ------------------------------------------------------------------

  function PrimValue(p: Prim): Json {
    match p case PText(s) => JString(Sanitize(s)) case PRaw(t) => Parse(t).value
  }

  function PrimValues(ps: seq<Prim>): seq<Json> { seq(|ps|, i requires 0 <= i < |ps| => PrimValue(ps[i])) }

  /** The value an Append call stands for; a failed reflection stands for none. A value given to
      a callback is one value, wherever it stands: the first that the callback appends. */
  function ElemValues(e: Elem): (vs: seq<Json>)
    ensures |vs| <= 1
    decreases e, 0
  {
    match e
    case Prim(p) => [PrimValue(p)]
    case Stamp(ps, fallback) => [PrimValue(Stamped(ps, fallback)[0])]
    case List(es) => [JArray(ListValues(es))]
    case Object(cs) => [JObject(Fields(cs))]
    case Reflected(r) => if r.None? then [] else [Parse(r.value).value]
  }

  function ListValues(es: seq<Elem>): seq<Json>
    decreases es, 1
  {
    if es == [] then [] else ElemValues(es[0]) + ListValues(es[1..])
  }

  /** The members a sequence of calls stands for: everything after OpenNamespace goes inside. */
  function Fields(cs: seq<Call>): seq<Member>
    decreases cs, 1
  {
    if cs == [] then [] else
    match cs[0]
    case OpenNamespace(k) => [Member(Sanitize(k), JObject(Fields(cs[1..])))]
    case Add(k, e) => FieldOf(k, e) + Fields(cs[1..])
  }

  function FieldOf(k: Bytes, e: Elem): seq<Member>
    decreases e, 1
  {
    var vs := ElemValues(e);
    if vs == [] then [] else [Member(Sanitize(k), vs[0])]
  }

  // ---- the value written -------------------------------------------------------------------
  // In an array, each primitive that a callback appends is an item of its own.

  /** The items an Append call adds to an array. */
  function ElemSpread(e: Elem): seq<Json>
    decreases e, 0
  {
    match e
    case Prim(p) => [PrimValue(p)]
    case Stamp(ps, fallback) => PrimValues(Stamped(ps, fallback))
    case List(es) => [JArray(ListSpread(es))]
    case Object(cs) => [JObject(Spread(cs))]
    case Reflected(r) => if r.None? then [] else [Parse(r.value).value]
  }

  function ListSpread(es: seq<Elem>): seq<Json>
    decreases es, 1
  {
    if es == [] then [] else ElemSpread(es[0]) + ListSpread(es[1..])
  }

  /** The members a sequence of calls adds, if everything after OpenNamespace goes inside. */
  function Spread(cs: seq<Call>): seq<Member>
    decreases cs, 1
  {
    if cs == [] then [] else
    match cs[0]
    case OpenNamespace(k) => [Member(Sanitize(k), JObject(Spread(cs[1..])))]
    case Add(k, e) => SpreadOf(k, e) + Spread(cs[1..])
  }

  function SpreadOf(k: Bytes, e: Elem): seq<Member>
    decreases e, 1
  {
    var vs := ElemSpread(e);
    if vs == [] then [] else [Member(Sanitize(k), vs[0])]
  }

  /** Where members are being added: those already there, and what stands around them. */
  datatype Cursor = Cursor(members: seq<Member>, up: Context)

  function At(c: Cursor): State { Members(c.members, c.up) }

  function Enter(c: Cursor, name: Bytes): Cursor { Cursor([], InObject(c.members, name, c.up)) }

  /** A closing brace: the object becomes a member of the object around it. */
  function Leave(c: Cursor): Cursor {
    match c.up
    case InObject(ms, name, up) => Cursor(ms + [Member(name, JObject(c.members))], up)
    case _ => c
  }

  function LeaveAll(c: Cursor, n: nat): Cursor { if n == 0 then c else Leave(LeaveAll(c, n - 1)) }

  /** What the writes do to the cursor. The brace that ends an object marshaller closes the
      namespace opened last, wherever that was. */
  function Written(cs: seq<Call>, c: Cursor): Cursor
    decreases cs, 1
  {
    if cs == [] then c else Written(cs[1..], WrittenOne(cs[0], c))
  }

  function WrittenOne(call: Call, c: Cursor): Cursor
    decreases call, 0
  {
    match call
    case OpenNamespace(k) => Enter(c, Sanitize(k))
    case Add(k, Object(cs)) => Leave(Written(cs, Enter(c, Sanitize(k))))
    case Add(k, e) =>
      var vs := ElemSpread(e);
      if vs == [] then c else c.(members := c.members + [Member(Sanitize(k), vs[0])])
  }

  /** `a` is `b` with `n` objects opened inside it. */
  predicate Inside(a: Context, n: nat, b: Context) {
    if n == 0 then a == b else a.InObject? && Inside(a.up, n - 1, b)
  }

  lemma {:induction false} InsideTrans(a: Context, m: nat, b: Context, n: nat, c: Context)
    requires Inside(a, m, b) && Inside(b, n, c)
    ensures Inside(a, m + n, c)
    decreases m
  {
    if m > 0 { InsideTrans(a.up, m - 1, b, n, c); }
  }

  /** The cursor ends as many objects deeper as namespaces were opened. */
  lemma {:induction false} WrittenDepth(cs: seq<Call>, c: Cursor)
    requires CallsOk(cs)
    ensures Inside(Written(cs, c).up, Spaces(cs), c.up)
    decreases cs, 1
  {
    if cs != [] {
      var next := WrittenOne(cs[0], c);
      WrittenOneDepth(cs[0], c);
      WrittenDepth(cs[1..], next);
      InsideTrans(Written(cs, c).up, Spaces(cs[1..]), next.up, CallSpaces(cs[0]), c.up);
    }
  }

  lemma {:induction false} WrittenOneDepth(call: Call, c: Cursor)
    requires CallOk(call)
    ensures Inside(WrittenOne(call, c).up, CallSpaces(call), c.up)
    decreases call, 0
  {
    assert Inside(c.up, 0, c.up);
    if call.Add? {
      var (k, e) := (call.key, call.elem);
      if e.Object? {
        var inner := Enter(c, Sanitize(k));
        var w := Written(e.calls, inner);
        WrittenDepth(e.calls, inner);
        assert Inside(inner.up, 1, c.up);
        InsideTrans(w.up, Spaces(e.calls), inner.up, 1, c.up);
        assert Inside(w.up.up, Spaces(e.calls), c.up);
        assert WrittenOne(call, c) == Leave(w) && CallSpaces(call) == ElemSpaces(e) == Spaces(e.calls);
      } else {
        if e.List? { ListOkSpaces(e.elems); }
        assert CallSpaces(call) == ElemSpaces(e) == 0;
        assert WrittenOne(call, c).up == c.up;
      }
    } else {
      assert Inside(WrittenOne(call, c).up, 1, c.up);
    }
  }

  lemma {:induction false} ListOkSpaces(es: seq<Elem>)
    requires ListOk(es)
    ensures ListSpaces(es) == 0
    decreases es, 1
  {
    if es != [] {
      if es[0].List? { ListOkSpaces(es[0].elems); }
      ListOkSpaces(es[1..]);
    }
  }
}
