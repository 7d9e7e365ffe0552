/** When the value written is the value intended. The brace that ends an object marshaller
    closes the namespace opened last, so a namespace opened inside an object swallows what is
    added behind that object; and a callback that appends several primitives in an array makes
    several items of one. The text denotes the intended value exactly when there is nothing to
    swallow and no such callback. */
module EncoderScope {
  import Sequences
  import opened Utf8
  import opened JsonText
  import opened EncoderCalls
  import opened EncoderMeaning

  /** The calls add nothing: only failed reflections. */
  predicate Silent(cs: seq<Call>) { forall c <- cs :: c.Add? && Skipped(c.elem) }

  predicate TidyElem(e: Elem)
    decreases e, 0
  {
    e.Object? ==> Tidy(e.calls)
  }

  /** Nothing is added behind an object in which a namespace was opened. */
  predicate Tidy(cs: seq<Call>)
    decreases cs, 1
  {
    cs == [] ||
    (&& (cs[0].Add? ==> TidyElem(cs[0].elem) && (ElemSpaces(cs[0].elem) == 0 || Silent(cs[1..])))
     && Tidy(cs[1..]))
  }

  predicate SingleElem(e: Elem)
    decreases e, 0
  {
    match e
    case Stamp(ps, _) => |ps| <= 1
    case List(es) => SingleList(es)
    case Object(cs) => Single(cs)
    case _ => true
  }

  predicate SingleList(es: seq<Elem>)
    decreases es, 1
  {
    es == [] || (SingleElem(es[0]) && SingleList(es[1..]))
  }

  /** No callback appends several primitives, not even in an array, which can hold them. */
  predicate Single(cs: seq<Call>)
    decreases cs, 1
  {
    cs == [] || ((cs[0].Add? ==> SingleElem(cs[0].elem)) && Single(cs[1..]))
  }

  lemma {:induction false} SilentSpread(cs: seq<Call>)
    ensures Silent(cs) <==> Spread(cs) == []
    decreases cs
  {
    if cs != [] {
      SilentSpread(cs[1..]);
      assert cs == [cs[0]] + cs[1..];
      if cs[0].Add? { NotSkipped(cs[0].elem); }
    }
  }

  lemma NotSkipped(e: Elem)
    ensures Skipped(e) <==> ElemSpread(e) == []
  {
  }

  lemma {:induction false} SilentWritten(cs: seq<Call>, c: Cursor)
    requires Silent(cs)
    ensures Written(cs, c) == c && Spaces(cs) == 0
    decreases cs
  {
    if cs != [] {
      assert cs == [cs[0]] + cs[1..];
      assert WrittenOne(cs[0], c) == c && CallSpaces(cs[0]) == ElemSpaces(cs[0].elem) == 0;
      SilentWritten(cs[1..], c);
    }
  }

  // ---- tidy calls ------------------------------------------------------------------------

  lemma {:induction false} LeaveFirst(c: Cursor, n: nat)
    ensures LeaveAll(Leave(c), n) == LeaveAll(c, n + 1)
  {
    if n == 0 {
      assert LeaveAll(c, 1) == Leave(LeaveAll(c, 0));
    } else {
      LeaveFirst(c, n - 1);
    }
  }

  /** Tidy calls: closing every namespace gives the value intended. */
  lemma {:induction false} WrittenTidy(cs: seq<Call>, c: Cursor)
    requires CallsOk(cs) && Tidy(cs)
    ensures LeaveAll(Written(cs, c), Spaces(cs)) == c.(members := c.members + Spread(cs))
    decreases cs, 2
  {
    if cs == [] {
      assert c.members + Spread(cs) == c.members;
    } else if cs[0].OpenNamespace? {
      WrittenTidy(cs[1..], WrittenOne(cs[0], c));
      assert cs == [OpenNamespace(cs[0].key)] + cs[1..];
      TidyNamespace(cs[0].key, cs[1..], c);
    } else {
      var (rest, k, e) := (cs[1..], cs[0].key, cs[0].elem);
      assert MemberOk(e) && TidyElem(e);
      Sequences.Assoc(c.members, SpreadOf(k, e), Spread(rest));
      if ElemSpaces(e) == 0 {
        FlatCall(k, e, c);
        WrittenTidy(rest, WrittenOne(cs[0], c));
      } else {
        if e.List? { ListOkSpaces(e.elems); }
        TidyObject(k, e.calls, c);
        SilentWritten(rest, WrittenOne(cs[0], c));
        SilentSpread(rest);
        assert c.members + SpreadOf(k, e) + [] == c.members + SpreadOf(k, e);
      }
    }
  }

  lemma LeaveAllStep(c: Cursor, n: nat)
    ensures LeaveAll(c, n + 1) == Leave(LeaveAll(c, n))
  {
  }

  /** What a leading OpenNamespace adds to each function of the calls. */
  lemma NamespaceFirst(k: Bytes, rest: seq<Call>, c: Cursor)
    ensures var cs := [OpenNamespace(k)] + rest;
            && Written(cs, c) == Written(rest, Enter(c, Sanitize(k)))
            && Spaces(cs) == Spaces(rest) + 1
            && Some(Spread(cs)) == Some([Member(Sanitize(k), JObject(Spread(rest)))])
  {
    var cs := [OpenNamespace(k)] + rest;
    assert cs[1..] == rest && cs[0] == OpenNamespace(k);
  }

  /** Leaving a namespace makes one member of what was added in it. */
  lemma LeaveNamespace(c: Cursor, k: Bytes, fields: seq<Member>)
    ensures var next := Enter(c, Sanitize(k));
            Leave(next.(members := next.members + fields))
            == c.(members := c.members + [Member(Sanitize(k), JObject(fields))])
  {
    assert [] + fields == fields;
  }

  lemma TidyNamespace(k: Bytes, rest: seq<Call>, c: Cursor)
    requires var next := Enter(c, Sanitize(k));
             LeaveAll(Written(rest, next), Spaces(rest)) == next.(members := next.members + Spread(rest))
    ensures var cs := [OpenNamespace(k)] + rest;
            LeaveAll(Written(cs, c), Spaces(cs)) == c.(members := c.members + Spread(cs))
  {
    NamespaceFirst(k, rest, c);
    LeaveAllStep(Written(rest, Enter(c, Sanitize(k))), Spaces(rest));
    LeaveNamespace(c, k, Spread(rest));
  }

  lemma {:induction false} TidyObject(k: Bytes, cs: seq<Call>, c: Cursor)
    requires CallsOk(cs) && Tidy(cs)
    ensures LeaveAll(WrittenOne(Add(k, Object(cs)), c), Spaces(cs))
         == c.(members := c.members + SpreadOf(k, Object(cs)))
    decreases cs, 3
  {
    var inner := Enter(c, Sanitize(k));
    WrittenTidy(cs, inner);
    LeaveFirst(Written(cs, inner), Spaces(cs));
    assert [] + Spread(cs) == Spread(cs);
  }

  // ---- calls that are not tidy ------------------------------------------------------------
  // Each member weighs as much as its depth. Swallowing puts members deeper than intended, so
  // it makes the whole heavier, and nothing makes it lighter.

  function Weight(ms: seq<Member>, depth: nat): nat
    decreases ms, 1
  {
    if ms == [] then 0 else Weight(ms[..|ms| - 1], depth) + MemberWeight(ms[|ms| - 1], depth)
  }

  function MemberWeight(m: Member, depth: nat): nat
    decreases m, 0
  {
    depth + if m.value.JObject? then Weight(m.value.members, depth + 1) else 0
  }

  lemma {:induction false} WeightConcat(x: seq<Member>, y: seq<Member>, depth: nat)
    ensures Weight(x + y, depth) == Weight(x, depth) + Weight(y, depth)
    decreases y
  {
    var n := |y| - 1;
    if y == [] {
      assert x + y == x;
    } else {
      assert (x + y)[..|x + y| - 1] == x + y[..n];
      WeightConcat(x, y[..n], depth);
    }
  }

  lemma WeightOne(m: Member, depth: nat)
    ensures Weight([m], depth) == MemberWeight(m, depth)
  {
    assert [m][..0] == [];
  }

  lemma {:induction false} WeightDeeper(ms: seq<Member>, depth: nat)
    ensures Weight(ms, depth + 1) >= Weight(ms, depth) + |ms|
    decreases ms, 1
  {
    if ms != [] {
      var m := ms[|ms| - 1];
      WeightDeeper(ms[..|ms| - 1], depth);
      if m.value.JObject? { WeightDeeper(m.value.members, depth + 1); }
    }
  }

  lemma {:induction false} WeightMuchDeeper(ms: seq<Member>, depth: nat, n: nat)
    ensures Weight(ms, depth + n) >= Weight(ms, depth)
    ensures Weight(ms, depth + n) == Weight(ms, depth) <==> n == 0 || ms == []
    decreases n
  {
    if n > 0 {
      WeightMuchDeeper(ms, depth, n - 1);
      WeightDeeper(ms, depth + n - 1);
    }
  }

  function Depth(c: Context): nat { if c.InObject? then 1 + Depth(c.up) else 0 }

  function Frames(c: Context): nat {
    if c.InObject? then Weight(c.members, Depth(c.up)) + Depth(c.up) + Frames(c.up) else 0
  }

  /** The weight of everything written: the members here and those around. */
  function Total(c: Cursor): nat { Weight(c.members, Depth(c.up)) + Frames(c.up) }

  lemma LeaveTotal(c: Cursor)
    ensures Total(Leave(c)) == Total(c)
  {
    if c.up.InObject? {
      var m := Member(c.up.name, JObject(c.members));
      WeightConcat(c.up.members, [m], Depth(c.up.up));
      WeightOne(m, Depth(c.up.up));
    }
  }

  lemma {:induction false} LeaveAllTotal(c: Cursor, n: nat)
    ensures Total(LeaveAll(c, n)) == Total(c)
  {
    if n > 0 {
      LeaveAllTotal(c, n - 1);
      LeaveTotal(LeaveAll(c, n - 1));
    }
  }

  lemma {:induction false} InsideDepth(a: Context, n: nat, b: Context)
    requires Inside(a, n, b)
    ensures Depth(a) == Depth(b) + n
    decreases n
  {
    if n > 0 { InsideDepth(a.up, n - 1, b); }
  }

  lemma EnterTotal(c: Cursor, name: Bytes)
    ensures Total(Enter(c, name)) == Total(c) + Depth(c.up) && Depth(Enter(c, name).up) == Depth(c.up) + 1
  {
    assert Weight([], Depth(c.up) + 1) == 0;
  }

  lemma SpreadFirst(cs: seq<Call>, depth: nat)
    requires cs != []
    ensures Weight(Spread(cs), depth)
         == match cs[0]
            case OpenNamespace(_) => depth + Weight(Spread(cs[1..]), depth + 1)
            case Add(k, e) => Weight(SpreadOf(k, e), depth) + Weight(Spread(cs[1..]), depth)
  {
    match cs[0]
    case OpenNamespace(k) => WeightOne(Member(Sanitize(k), JObject(Spread(cs[1..]))), depth);
    case Add(k, e) => WeightConcat(SpreadOf(k, e), Spread(cs[1..]), depth);
  }

  /** What is written weighs at least what is intended, and as much only for tidy calls. */
  lemma {:induction false} WrittenWeight(cs: seq<Call>, c: Cursor)
    requires CallsOk(cs)
    ensures Total(Written(cs, c)) >= Total(c) + Weight(Spread(cs), Depth(c.up))
    ensures Total(Written(cs, c)) == Total(c) + Weight(Spread(cs), Depth(c.up)) <==> Tidy(cs)
    decreases cs, 2
  {
    if cs != [] {
      WrittenWeight(cs[1..], WrittenOne(cs[0], c));
      SpreadFirst(cs, Depth(c.up));
      match cs[0]
      case OpenNamespace(k) => EnterTotal(c, Sanitize(k));
      case Add(k, e) => AddWeight(k, e, cs[1..], c);
    }
  }

  lemma SwallowedWeight(cs: seq<Call>, depth: nat, n: nat)
    ensures Weight(Spread(cs), depth + n) >= Weight(Spread(cs), depth)
    ensures Weight(Spread(cs), depth + n) == Weight(Spread(cs), depth) <==> n == 0 || Silent(cs)
  {
    SilentSpread(cs);
    WeightMuchDeeper(Spread(cs), depth, n);
  }

  lemma NextDepth(k: Bytes, e: Elem, c: Cursor)
    requires MemberOk(e)
    ensures Depth(WrittenOne(Add(k, e), c).up) == Depth(c.up) + ElemSpaces(e)
  {
    var call := Add(k, e);
    assert CallOk(call) && CallSpaces(call) == ElemSpaces(e);
    WrittenOneDepth(call, c);
    InsideDepth(WrittenOne(call, c).up, ElemSpaces(e), c.up);
  }

  /** The members behind a call weigh more than intended exactly when they are swallowed. */
  lemma {:induction false} AddWeight(k: Bytes, e: Elem, rest: seq<Call>, c: Cursor)
    requires MemberOk(e)
    ensures var (d, next) := (Depth(c.up), WrittenOne(Add(k, e), c));
            var (meant, t) := (Weight(SpreadOf(k, e), d) + Weight(Spread(rest), d),
                               Total(next) + Weight(Spread(rest), Depth(next.up)));
            && t >= Total(c) + meant
            && (t == Total(c) + meant <==> TidyElem(e) && (ElemSpaces(e) == 0 || Silent(rest)))
    decreases e, 2
  {
    WrittenOneWeight(k, e, c);
    NextDepth(k, e, c);
    SwallowedWeight(rest, Depth(c.up), ElemSpaces(e));
  }

  lemma {:induction false} WrittenOneWeight(k: Bytes, e: Elem, c: Cursor)
    requires MemberOk(e)
    ensures Total(WrittenOne(Add(k, e), c)) >= Total(c) + Weight(SpreadOf(k, e), Depth(c.up))
    ensures Total(WrittenOne(Add(k, e), c)) == Total(c) + Weight(SpreadOf(k, e), Depth(c.up)) <==> TidyElem(e)
    decreases e, 1
  {
    if e.Object? {
      var inner := Enter(c, Sanitize(k));
      WrittenWeight(e.calls, inner);
      LeaveTotal(Written(e.calls, inner));
      WeightOne(Member(Sanitize(k), JObject(Spread(e.calls))), Depth(c.up));
    } else {
      WeightConcat(c.members, SpreadOf(k, e), Depth(c.up));
      assert c.members + [] == c.members;
    }
  }

  // ---- several items for one value ----------------------------------------------------------

  lemma {:induction false} SpreadWeight(cs: seq<Call>, depth: nat)
    ensures |Spread(cs)| == |Fields(cs)| && Weight(Spread(cs), depth) == Weight(Fields(cs), depth)
    decreases cs, 1
  {
    if cs != [] {
      var rest := cs[1..];
      if cs[0].OpenNamespace? {
        SpreadWeight(rest, depth + 1);
        WeightOne(Spread(cs)[0], depth);
        WeightOne(Fields(cs)[0], depth);
      } else {
        var (k, e) := (cs[0].key, cs[0].elem);
        SpreadWeight(rest, depth);
        SpreadOfWeight(k, e, depth);
        WeightConcat(SpreadOf(k, e), Spread(rest), depth);
        WeightConcat(FieldOf(k, e), Fields(rest), depth);
      }
    }
  }

  lemma {:induction false} SpreadOfWeight(k: Bytes, e: Elem, depth: nat)
    ensures |SpreadOf(k, e)| == |FieldOf(k, e)| && Weight(SpreadOf(k, e), depth) == Weight(FieldOf(k, e), depth)
    decreases e, 0
  {
    if ElemSpread(e) != [] {
      if e.Object? { SpreadWeight(e.calls, depth + 1); }
      WeightOne(SpreadOf(k, e)[0], depth);
      WeightOne(FieldOf(k, e)[0], depth);
    }
  }

  /** What calls add in their place is what they stand for exactly when no callback makes
      several items of one value. */
  lemma {:induction false} SpreadExact(cs: seq<Call>)
    requires CallsOk(cs)
    ensures Spread(cs) == Fields(cs) <==> Single(cs)
    decreases cs, 1
  {
    if cs != [] {
      var rest := cs[1..];
      SpreadExact(rest);
      if cs[0].Add? {
        var (k, e) := (cs[0].key, cs[0].elem);
        ElemSpreadExact(e);
        SpreadOfWeight(k, e, 0);
        SpreadWeight(rest, 0);
        Sequences.SameParts(SpreadOf(k, e), Spread(rest), FieldOf(k, e), Fields(rest));
      }
    }
  }

  lemma {:induction false} ElemSpreadExact(e: Elem)
    requires MemberOk(e) || ItemOk(e)
    ensures |ElemSpread(e)| >= |ElemValues(e)|
    ensures ElemSpread(e) == ElemValues(e) <==> SingleElem(e)
    decreases e, 0
  {
    match e
    case Stamp(ps, fallback) =>
      if ps != [] { assert PrimValues(ps)[0] == PrimValue(ps[0]); }
    case List(es) => ListSpreadExact(es);
    case Object(cs) => SpreadExact(cs);
    case _ =>
  }

  lemma {:induction false} ListSpreadExact(es: seq<Elem>)
    requires ListOk(es)
    ensures |ListSpread(es)| >= |ListValues(es)|
    ensures ListSpread(es) == ListValues(es) <==> SingleList(es)
    decreases es, 1
  {
    if es != [] {
      ElemSpreadExact(es[0]);
      ListSpreadExact(es[1..]);
      Sequences.SameParts(ElemSpread(es[0]), ListSpread(es[1..]), ElemValues(es[0]), ListValues(es[1..]));
    }
  }

  // ---- written and intended --------------------------------------------------------------------

  /** The members that end up at top level. */
  function TopMembers(cs: seq<Call>): seq<Member> {
    LeaveAll(Written(cs, Cursor([], Top)), Spaces(cs)).members
  }

  lemma TopTidy(cs: seq<Call>)
    requires CallsOk(cs) && Tidy(cs)
    ensures Some(TopMembers(cs)) == Some(Spread(cs))
  {
    WrittenTidy(cs, Cursor([], Top));
    assert [] + Spread(cs) == Spread(cs);
  }

  lemma TopWeight(cs: seq<Call>)
    requires CallsOk(cs)
    ensures Weight(TopMembers(cs), 0) == Weight(Fields(cs), 0) <==> Tidy(cs)
  {
    var c := Cursor([], Top);
    WrittenWeight(cs, c);
    LeaveAllTotal(Written(cs, c), Spaces(cs));
    WrittenDepth(cs, c);
    CloseSpaces(Written(cs, c), Spaces(cs), Top);
    SpreadWeight(cs, 0);
  }

  /** The members written at top level are the members intended exactly when nothing is added
      behind an object that opened a namespace, and no callback appends several items. */
  lemma ScopeExact(cs: seq<Call>)
    requires CallsOk(cs)
    ensures TopMembers(cs) == Fields(cs) <==> Tidy(cs) && Single(cs)
  {
    TopWeight(cs);
    SpreadExact(cs);
    if Tidy(cs) { TopTidy(cs); }
  }
}
