/** The value that calls stand for, read off the calls one by one: fields keep their order, and
    OpenNamespace takes everything behind it inside. */
module EncoderFields {
  import Sequences
  import opened Utf8
  import opened JsonText
  import opened EncoderCalls

  predicate NoNamespace(cs: seq<Call>) { forall c <- cs :: c.Add? }

  /** A primitive stands for its text, or for what its unquoted token denotes. */
  predicate IsPrim(v: Json, p: Prim) {
    match p case PText(s) => v == JString(Sanitize(s)) case PRaw(t) => Parse(t) == Some(v)
  }

  /** The value of an element that is not skipped. */
  predicate IsValue(v: Json, e: Elem) {
    match e
    case Prim(p) => IsPrim(v, p)
    case Stamp(ps, fallback) => IsPrim(v, if ps == [] then fallback else ps[0])
    case List(es) => v.JArray? && v.items == ListValues(es)
    case Object(cs) => v.JObject? && v.members == Fields(cs)
    case Reflected(r) => r.Some? && Parse(r.value) == Some(v)
  }

  /** What comes first stays first. */
  lemma {:induction false} FieldsJoin(a: seq<Call>, b: seq<Call>)
    requires NoNamespace(a)
    ensures Fields(a + b) == Fields(a) + Fields(b)
    decreases |a|
  {
    if a == [] {
      assert a + b == b;
    } else {
      assert (a + b)[1..] == a[1..] + b;
      FieldsJoin(a[1..], b);
      Sequences.Assoc(FieldOf(a[0].key, a[0].elem), Fields(a[1..]), Fields(b));
    }
  }

  lemma PrimStands(p: Prim)
    ensures IsPrim(PrimValue(p), p)
  {
  }

  lemma ElemStands(e: Elem)
    ensures var vs := ElemValues(e); if Skipped(e) then vs == [] else |vs| == 1 && IsValue(vs[0], e)
  {
    match e
    case Prim(p) => PrimStands(p);
    case Stamp(ps, fallback) => PrimStands(Stamped(ps, fallback)[0]);
    case _ =>
  }

  /** Behind OpenNamespace everything is inside. */
  lemma FieldsNamespace(a: seq<Call>, k: Bytes, b: seq<Call>)
    requires NoNamespace(a)
    ensures Fields(a + ([OpenNamespace(k)] + b)) == Fields(a) + [Member(Sanitize(k), JObject(Fields(b)))]
  {
    FieldsJoin(a, [OpenNamespace(k)] + b);
    assert ([OpenNamespace(k)] + b)[1..] == b;
  }

  lemma {:induction false} ItemsJoin(a: seq<Elem>, b: seq<Elem>)
    ensures ListValues(a + b) == ListValues(a) + ListValues(b)
    decreases |a|
  {
    if a == [] {
      assert a + b == b;
    } else {
      assert (a + b)[1..] == a[1..] + b;
      ItemsJoin(a[1..], b);
      Sequences.Assoc(ElemValues(a[0]), ListValues(a[1..]), ListValues(b));
    }
  }

  /** One more in the middle. */
  predicate Inserted<T(==)>(all: seq<T>, n: nat, x: T, others: seq<T>) {
    n < |all| && all[n] == x && Some(all[..n] + all[n + 1..]) == Some(others)
  }

  lemma Inserts<T>(a: seq<T>, x: seq<T>, b: seq<T>)
    requires |x| == 1
    ensures Inserted(a + (x + b), |a|, x[0], a + b)
  {
    var all := a + (x + b);
    assert all[..|a|] == a && all[|a| + 1..] == b;
  }

  /** An item of an array is one value, in its place; a failed reflection is none. */
  lemma ItemPlace(a: seq<Elem>, e: Elem, b: seq<Elem>)
    ensures var vs := ListValues(a + ([e] + b));
            if Skipped(e) then vs == ListValues(a + b)
            else exists v :: IsValue(v, e) && Inserted(vs, |ListValues(a)|, v, ListValues(a + b))
  {
    ItemsJoin(a, [e] + b);
    ItemsJoin(a, b);
    assert ([e] + b)[1..] == b;
    ElemStands(e);
    var (before, here, after) := (ListValues(a), ElemValues(e), ListValues(b));
    if Skipped(e) {
      assert here + after == after;
    } else {
      Inserts(before, here, after);
      assert IsValue(here[0], e);
    }
  }

  /** A field of a context is one member, in its place, whatever else the context holds. */
  lemma FieldPlace(a: seq<Call>, k: Bytes, e: Elem, b: seq<Call>)
    requires NoNamespace(a)
    ensures var ms := Fields(a + ([Add(k, e)] + b));
            if Skipped(e) then ms == Fields(a + b)
            else exists v :: IsValue(v, e) && Inserted(ms, |Fields(a)|, Member(Sanitize(k), v), Fields(a + b))
  {
    FieldsJoin(a, [Add(k, e)] + b);
    FieldsJoin(a, b);
    assert ([Add(k, e)] + b)[1..] == b;
    ElemStands(e);
    var (before, here, after) := (Fields(a), FieldOf(k, e), Fields(b));
    if Skipped(e) {
      assert here + after == after;
    } else {
      Inserts(before, here, after);
      assert IsValue(here[0].value, e);
    }
  }
}
