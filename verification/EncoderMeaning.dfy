/** What the tracked context makes of the writes of a sequence of calls: which calls a JSON
    text can hold, and which value it then denotes. */
module EncoderMeaning {
  import Sequences
  import opened Utf8
  import opened JsonText
  import opened EncoderOps
  import opened EncoderCalls

  // ---- states that no array or object write can save ---------------------------------------

  /** The next write, whatever it is, leaves no JSON text. */
  predicate Dead(s: State) { s.Fail? || s.NeedColon? }

  /** A member is due: what an array marshaller meets when an object in it left a namespace open. */
  predicate Stuck(s: State) { s.FirstName? || s.AfterMember? }

  lemma DeadOp(s: State, op: Op)
    requires Dead(s)
    ensures AfterOp(s, op).Fail?
  {
    if op.Raw? { RunFail(Lex(op.json).value); }
  }

  lemma {:induction false} DeadOps(s: State, ops: seq<Op>)
    requires Dead(s)
    ensures Dead(AfterOps(s, ops)) && (ops != [] ==> AfterOps(s, ops).Fail?)
    decreases ops
  {
    if ops != [] {
      DeadOp(s, ops[0]);
      DeadOps(AfterOp(s, ops[0]), ops[1..]);
    }
  }

  predicate Appends(op: Op) { op.Text? || op.Raw? || op.OpenArray? || op.OpenObject? }

  lemma StuckOp(s: State, op: Op)
    requires Stuck(s) && Appends(op)
    ensures Dead(AfterOp(s, op))
  {
    if op.Raw? {
      var ts := Lex(op.json).value;
      RawLexes(op.json);
      var next := Step(Ready(s), ts[0]);
      if ts[0].Str? {
        assert ts == [ts[0]];
        RunOne(Ready(s), ts[0]);
      } else {
        RunFail(ts[1..]);
      }
    }
  }

  lemma {:induction false} ElemAppends(e: Elem)
    ensures ElemOps(e) == [] || Appends(ElemOps(e)[0])
  {
  }

  lemma {:induction false} ListAppends(es: seq<Elem>)
    ensures ListOps(es) == [] || Appends(ListOps(es)[0])
  {
    if es != [] {
      ElemAppends(es[0]);
      ListAppends(es[1..]);
    }
  }

  /** An array cannot be finished from inside an object. */
  lemma StuckList(s: State, es: seq<Elem>)
    requires Stuck(s)
    ensures AfterOps(s, ListOps(es) + [CloseArray]).Fail?
  {
    var ops := ListOps(es) + [CloseArray];
    ListAppends(es);
    if ListOps(es) == [] {
      assert ops == [CloseArray];
      AfterOne(s, CloseArray);
    } else {
      assert ops[0] == ListOps(es)[0] && ops[1..] != [];
      StuckOp(s, ops[0]);
      DeadOps(AfterOp(s, ops[0]), ops[1..]);
    }
  }

  // ---- one value -------------------------------------------------------------------------

  lemma PrimPlugs(c: Context, p: Prim)
    ensures AfterOp(Want(c), PrimOp(p)) == Plug(c, PrimValue(p))
  {
    if p.PRaw? {
      RawLexes(p.json);
      RunValue(c, PrimValue(p));
    }
  }

  /** In an array, a value is due whether or not a comma goes before it. */
  lemma ItemReady(items: seq<Json>, up: Context, op: Op)
    requires Appends(op)
    ensures AfterOp(Items(items, up), op) == AfterOp(Want(InArray(items, up)), op)
  {
    if op.Raw? && items == [] {
      RawLexes(op.json);
      RunFirst(up, Parse(op.json).value);
    }
  }

  lemma PrimInArray(items: seq<Json>, up: Context, p: Prim)
    ensures AfterOp(Items(items, up), PrimOp(p)) == Items(items + [PrimValue(p)], up)
  {
    ItemReady(items, up, PrimOp(p));
    PrimPlugs(InArray(items, up), p);
  }

  lemma ValuesFirst(items: seq<Json>, p: Prim, ps: seq<Prim>)
    ensures PrimOps([p] + ps) == [PrimOp(p)] + PrimOps(ps)
    ensures Some(items + PrimValues([p] + ps)) == Some(items + [PrimValue(p)] + PrimValues(ps))
  {
    assert PrimValues([p] + ps) == [PrimValue(p)] + PrimValues(ps);
    Sequences.Assoc(items, [PrimValue(p)], PrimValues(ps));
  }

  lemma {:induction false} PrimsInArray(items: seq<Json>, up: Context, ps: seq<Prim>)
    ensures AfterOps(Items(items, up), PrimOps(ps)) == Items(items + PrimValues(ps), up)
    decreases ps
  {
    if ps == [] {
      assert items + PrimValues(ps) == items;
    } else {
      var (p, rest) := (ps[0], ps[1..]);
      assert ps == [p] + rest;
      ValuesFirst(items, p, rest);
      PrimInArray(items, up, p);
      assert AfterOps(Items(items, up), PrimOps(ps)) == AfterOps(Items(items + [PrimValue(p)], up), PrimOps(rest)) by {
        AfterConcat(Items(items, up), [PrimOp(p)], PrimOps(rest));
        AfterOne(Items(items, up), PrimOp(p));
      }
      PrimsInArray(items + [PrimValue(p)], up, rest);
    }
  }

  /** Entering a member: the key, and then the value is due. */
  lemma KeyEnters(c: Cursor, k: Bytes)
    ensures AfterOp(At(c), Key(k)) == Want(InObject(c.members, Sanitize(k), c.up))
  {
  }

  /** Brackets around writes. */
  lemma AfterBracketed(s: State, open: Op, ops: seq<Op>, close: Op)
    ensures AfterOps(s, [open] + ops + [close]) == AfterOp(AfterOps(AfterOp(s, open), ops), close)
  {
    AfterConcat(s, [open] + ops, [close]);
    AfterConcat(s, [open], ops);
    AfterOne(s, open);
    AfterOne(AfterOps(AfterOp(s, open), ops), close);
  }

  // ---- calls that a JSON text can hold -------------------------------------------------------

  /** In an array, the writes of good elements add exactly their values. */
  lemma {:induction false} GoodList(items: seq<Json>, up: Context, es: seq<Elem>)
    requires ListOk(es)
    ensures AfterOps(Items(items, up), ListOps(es)) == Items(items + ListSpread(es), up)
    decreases es, 2
  {
    if es == [] {
      assert items + ListSpread(es) == items;
    } else {
      GoodItem(items, up, es[0]);
      GoodList(items + ElemSpread(es[0]), up, es[1..]);
      AfterConcat(Items(items, up), ElemOps(es[0]), ListOps(es[1..]));
      Sequences.Assoc(items, ElemSpread(es[0]), ListSpread(es[1..]));
    }
  }

  lemma {:induction false} GoodItem(items: seq<Json>, up: Context, e: Elem)
    requires ItemOk(e)
    ensures AfterOps(Items(items, up), ElemOps(e)) == Items(items + ElemSpread(e), up)
    decreases e, 1
  {
    var (s, c) := (Items(items, up), InArray(items, up));
    match e
    case Prim(p) =>
      ItemReady(items, up, PrimOp(p));
      PrimPlugs(c, p);
      AfterOne(s, PrimOp(p));
    case Stamp(ps, fallback) => PrimsInArray(items, up, Stamped(ps, fallback));
    case Reflected(r) =>
      if r.None? {
        assert items + [] == items;
      } else {
        ItemReady(items, up, Raw(r.value));
        PrimPlugs(c, PRaw(r.value));
        AfterOne(s, Raw(r.value));
      }
    case List(es) =>
      ListPlugs(s, c, es);
    case Object(cs) =>
      ObjectCloses(s, c, cs);
      WrittenFlat(cs, Cursor([], c));
      assert [] + Spread(cs) == Spread(cs);
      CloseStep(c, [], Spread(cs));
  }

  /** An array, wherever a value may stand. */
  lemma {:induction false} ListPlugs(s: State, c: Context, es: seq<Elem>)
    requires ListOk(es) && AfterOp(s, OpenArray) == FirstItem(c)
    ensures AfterOps(s, [OpenArray] + ListOps(es) + [CloseArray]) == Plug(c, JArray(ListSpread(es)))
    decreases es, 3
  {
    GoodList([], c, es);
    AfterBracketed(s, OpenArray, ListOps(es), CloseArray);
    assert [] + ListSpread(es) == ListSpread(es);
    CloseStep(c, ListSpread(es), []);
  }

  /** An object, wherever a value may stand. */
  lemma {:induction false} ObjectCloses(s: State, c: Context, cs: seq<Call>)
    requires CallsOk(cs) && AfterOp(s, OpenObject) == FirstName(c)
    ensures AfterOps(s, [OpenObject] + CallOps(cs) + [CloseObject])
         == var w := Written(cs, Cursor([], c)); Plug(w.up, JObject(w.members))
    decreases cs, 3
  {
    var w := Written(cs, Cursor([], c));
    GoodCalls(cs, Cursor([], c));
    AfterBracketed(s, OpenObject, CallOps(cs), CloseObject);
    CloseStep(w.up, [], w.members);
  }

  /** Where members are due, the writes of good calls move the cursor as `Written` says. */
  lemma {:induction false} GoodCalls(cs: seq<Call>, c: Cursor)
    requires CallsOk(cs)
    ensures AfterOps(At(c), CallOps(cs)) == At(Written(cs, c))
    decreases cs, 2
  {
    if cs != [] {
      GoodCall(cs[0], c);
      GoodCalls(cs[1..], WrittenOne(cs[0], c));
      AfterConcat(At(c), OneCallOps(cs[0]), CallOps(cs[1..]));
    }
  }

  lemma {:induction false} GoodCall(call: Call, c: Cursor)
    requires CallOk(call)
    ensures AfterOps(At(c), OneCallOps(call)) == At(WrittenOne(call, c))
    decreases call, 1
  {
    var k := call.key;
    var within := InObject(c.members, Sanitize(k), c.up);
    KeyEnters(c, k);
    match call
    case OpenNamespace(_) =>
      assert [Key(k), OpenObject][1..] == [OpenObject];
      AfterOne(Want(within), OpenObject);
    case Add(_, e) =>
      if !Skipped(e) {
        GoodMember(e, c, k);
        assert ([Key(k)] + ElemOps(e))[1..] == ElemOps(e);
      }
  }

  lemma {:induction false} GoodMember(e: Elem, c: Cursor, k: Bytes)
    requires MemberOk(e) && !Skipped(e)
    ensures AfterOps(Want(InObject(c.members, Sanitize(k), c.up)), ElemOps(e)) == At(WrittenOne(Add(k, e), c))
    decreases e, 1
  {
    var within := InObject(c.members, Sanitize(k), c.up);
    match e
    case Prim(p) =>
      PrimPlugs(within, p);
      AfterOne(Want(within), PrimOp(p));
    case Stamp(ps, fallback) =>
      var p := Stamped(ps, fallback)[0];
      assert PrimOps(Stamped(ps, fallback)) == [PrimOp(p)];
      PrimPlugs(within, p);
      AfterOne(Want(within), PrimOp(p));
    case Reflected(r) =>
      PrimPlugs(within, PRaw(r.value));
      AfterOne(Want(within), Raw(r.value));
    case List(es) =>
      ListPlugs(Want(within), within, es);
    case Object(cs) =>
      ObjectCloses(Want(within), within, cs);
      WrittenDepth(cs, Cursor([], within));
      InsideObject(Written(cs, Cursor([], within)).up, Spaces(cs), within);
  }

  lemma InsideObject(a: Context, n: nat, b: Context)
    requires Inside(a, n, b) && b.InObject?
    ensures a.InObject?
  {
  }

  // ---- calls that a JSON text cannot hold -----------------------------------------------------

  lemma {:induction false} BadList(items: seq<Json>, up: Context, es: seq<Elem>)
    requires !ListOk(es)
    ensures AfterOps(Items(items, up), ListOps(es) + [CloseArray]).Fail?
    decreases es, 2
  {
    var (s, e, rest) := (Items(items, up), es[0], ListOps(es[1..]) + [CloseArray]);
    Sequences.Assoc(ElemOps(e), ListOps(es[1..]), [CloseArray]);
    AfterConcat(s, ElemOps(e), rest);
    if ItemOk(e) {
      GoodItem(items, up, e);
      BadList(items + ElemSpread(e), up, es[1..]);
    } else {
      BadItem(items, up, e);
      var after := AfterOps(s, ElemOps(e));
      if Dead(after) { DeadOps(after, rest); } else { StuckList(after, es[1..]); }
    }
  }

  lemma {:induction false} BadItem(items: seq<Json>, up: Context, e: Elem)
    requires !ItemOk(e)
    ensures var after := AfterOps(Items(items, up), ElemOps(e)); Dead(after) || Stuck(after)
    decreases e, 1
  {
    var (s, c) := (Items(items, up), InArray(items, up));
    match e
    case List(es) => BadListFails(s, c, es);
    case Object(cs) =>
      if CallsOk(cs) {
        ObjectCloses(s, c, cs);
        WrittenDepth(cs, Cursor([], c));
        InsideNotBase(Written(cs, Cursor([], c)).up, Spaces(cs), c);
      } else {
        BadObjectFails(s, c, cs);
      }
  }

  lemma InsideNotBase(a: Context, n: nat, b: Context)
    requires Inside(a, n, b) && n > 0
    ensures a.InObject?
  {
  }

  lemma {:induction false} BadListFails(s: State, c: Context, es: seq<Elem>)
    requires !ListOk(es) && AfterOp(s, OpenArray) == FirstItem(c)
    ensures AfterOps(s, [OpenArray] + ListOps(es) + [CloseArray]).Fail?
    decreases es, 3
  {
    AfterConcat(s, [OpenArray], ListOps(es) + [CloseArray]);
    Sequences.Assoc([OpenArray], ListOps(es), [CloseArray]);
    AfterOne(s, OpenArray);
    BadList([], c, es);
  }

  lemma {:induction false} BadObjectFails(s: State, c: Context, cs: seq<Call>)
    requires !CallsOk(cs) && AfterOp(s, OpenObject) == FirstName(c)
    ensures AfterOps(s, [OpenObject] + CallOps(cs) + [CloseObject]).Fail?
    decreases cs, 3
  {
    AfterBracketed(s, OpenObject, CallOps(cs), CloseObject);
    BadCalls(cs, Cursor([], c));
    DeadOp(AfterOps(FirstName(c), CallOps(cs)), CloseObject);
  }

  lemma {:induction false} BadCalls(cs: seq<Call>, c: Cursor)
    requires !CallsOk(cs)
    ensures Dead(AfterOps(At(c), CallOps(cs)))
    decreases cs, 2
  {
    AfterConcat(At(c), OneCallOps(cs[0]), CallOps(cs[1..]));
    if CallOk(cs[0]) {
      GoodCall(cs[0], c);
      BadCalls(cs[1..], WrittenOne(cs[0], c));
    } else {
      var (k, e) := (cs[0].key, cs[0].elem);
      KeyEnters(c, k);
      assert ([Key(k)] + ElemOps(e))[1..] == ElemOps(e);
      BadMember(e, InObject(c.members, Sanitize(k), c.up));
      DeadOps(AfterOps(At(c), OneCallOps(cs[0])), CallOps(cs[1..]));
    }
  }

  lemma {:induction false} BadMember(e: Elem, within: Context)
    requires !MemberOk(e) && within.InObject?
    ensures Dead(AfterOps(Want(within), ElemOps(e)))
    decreases e, 1
  {
    match e
    case Stamp(ps, _) =>
      var ops := PrimOps(ps);
      PrimPlugs(within, ps[0]);
      var second := AfterOp(Want(within), ops[0]);
      StuckOp(second, ops[1]);
      DeadOps(AfterOp(second, ops[1]), ops[2..]);
      assert ops[1..][1..] == ops[2..];
    case List(es) => BadListFails(Want(within), within, es);
    case Object(cs) => BadObjectFails(Want(within), within, cs);
  }

  // ---- no namespaces ------------------------------------------------------------------------

  /** Calls that open no namespace at any depth add just their members. */
  lemma {:induction false} WrittenFlat(cs: seq<Call>, c: Cursor)
    requires Spaces(cs) == 0
    ensures Written(cs, c) == c.(members := c.members + Spread(cs))
    decreases cs, 2
  {
    if cs == [] {
      assert c.members + Spread(cs) == c.members;
    } else {
      var (k, e) := (cs[0].key, cs[0].elem);
      FlatCall(k, e, c);
      WrittenFlat(cs[1..], WrittenOne(cs[0], c));
      Sequences.Assoc(c.members, SpreadOf(k, e), Spread(cs[1..]));
    }
  }

  lemma {:induction false} FlatCall(k: Bytes, e: Elem, c: Cursor)
    requires ElemSpaces(e) == 0
    ensures WrittenOne(Add(k, e), c) == c.(members := c.members + SpreadOf(k, e))
    decreases e, 1
  {
    if e.Object? {
      WrittenFlat(e.calls, Enter(c, Sanitize(k)));
      assert [] + Spread(e.calls) == Spread(e.calls);
    } else if ElemSpread(e) == [] {
      assert c.members + SpreadOf(k, e) == c.members;
    }
  }

  // ---- closing ----------------------------------------------------------------------------------

  function Repeat(op: Op, n: nat): seq<Op> { seq(n, _ => op) }

  /** closeOpenNamespaces: as many braces as namespaces were opened bring the cursor back out. */
  lemma {:induction false} CloseSpaces(c: Cursor, n: nat, up: Context)
    requires Inside(c.up, n, up)
    ensures AfterOps(At(c), Repeat(CloseObject, n)) == At(LeaveAll(c, n)) && LeaveAll(c, n).up == up
  {
    if n > 0 {
      InsidePrefix(c.up, n, up);
      var mid: Context :| Inside(c.up, n - 1, mid) && Inside(mid, 1, up);
      CloseSpaces(c, n - 1, mid);
      var w := LeaveAll(c, n - 1);
      assert Repeat(CloseObject, n) == Repeat(CloseObject, n - 1) + [CloseObject];
      AfterConcat(At(c), Repeat(CloseObject, n - 1), [CloseObject]);
      AfterOne(At(w), CloseObject);
      CloseStep(w.up, [], w.members);
      assert Inside(mid.up, 0, up);
    }
  }

  lemma {:induction false} InsidePrefix(a: Context, n: nat, b: Context)
    requires n > 0 && Inside(a, n, b)
    ensures exists mid: Context :: Inside(a, n - 1, mid) && Inside(mid, 1, b)
    decreases n
  {
    if n == 1 {
      assert Inside(a, 0, a);
    } else {
      InsidePrefix(a.up, n - 1, b);
      var mid: Context :| Inside(a.up, n - 2, mid) && Inside(mid, 1, b);
      assert Inside(a, n - 1, mid);
    }
  }
}
