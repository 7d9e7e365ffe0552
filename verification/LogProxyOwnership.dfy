/** Who may touch a buffer of the log writer: every buffer is in at most one place. */
module LogProxyOwnership {
  import opened Utf8
  import opened LogProxy

  /** The buffer that a call has and nobody else may use. A pointer merely loaded is not one. */
  function HeldByCall(pc: Pc): Option<Pointer> {
    match pc
    case Taken(b) => Some(b)
    case Ready(b) => Some(b)
    case Waiting(b) => Some(b)
    case _ => None
  }

  function HeldByRest(rest: Rest): seq<Pointer> {
    match rest
    case ThenCopy(_, next) => [next]
    case ThenHead(_) => []
    case ThenTemp(_, last) => AsList(last)
    case ThenAwait => []
  }

  /** The buffers the consumer has dequeued and not yet put into the cache or dropped, in order. */
  function HeldByConsumer(c: Consumer): seq<Pointer> {
    match c
    case Await => []
    case Head(first, _) => AsList(first)
    case Decide(first, _, next) => AsList(first) + [next]
    case CopyNext(_, next) => [next]
    case Flush(first, _, last) => AsList(first) + AsList(last)
    case FlushTemp(_, last) => AsList(last)
    case FlushNext(last) => AsList(last)
    case Put(b, _, rest) => [b] + HeldByRest(rest)
  }

  datatype Owners = Owners(slots: seq<Option<Pointer>>, queue: seq<Pointer>, calls: seq<Option<Pointer>>,
                           held: seq<Pointer>)

  function Holders(calls: seq<WriteCall>): (h: seq<Option<Pointer>>)
    ensures |h| == |calls|
  {
    seq(|calls|, (c: nat) requires c < |calls| => HeldByCall(calls[c].pc))
  }

  function OwnersOf(s: State): Owners {
    Owners(s.slots, s.queue, Holders(s.calls), HeldByConsumer(s.consumer))
  }

  datatype Place = InSlot(i: nat) | InQueue(i: nat) | WithCall(i: nat) | WithConsumer(i: nat)

  predicate At(o: Owners, b: Pointer, x: Place) {
    match x
    case InSlot(i) => i < |o.slots| && o.slots[i] == Some(b)
    case InQueue(i) => i < |o.queue| && o.queue[i] == b
    case WithCall(i) => i < |o.calls| && o.calls[i] == Some(b)
    case WithConsumer(i) => i < |o.held| && o.held[i] == b
  }

  /** One owner per buffer, and no pointer outside a heap of n buffers. */
  ghost predicate Owned(o: Owners, n: nat) {
    && (forall b: Pointer, x, y :: At(o, b, x) && At(o, b, y) ==> x == y)
    && forall b: Pointer, x :: At(o, b, x) ==> b < n
  }

  lemma CallChanges(calls: seq<WriteCall>, c: nat, call: WriteCall)
    requires c < |calls|
    ensures Holders(calls[c := call]) == Holders(calls)[c := HeldByCall(call.pc)]
  {
  }

  lemma CallAdded(calls: seq<WriteCall>, call: WriteCall)
    ensures Holders(calls + [call]) == Holders(calls) + [HeldByCall(call.pc)]
  {
  }

  lemma KeepsBegin(o: Owners, n: nat)
    requires Owned(o, n)
    ensures Owned(o.(calls := o.calls + [None]), n)
  {
    var o' := o.(calls := o.calls + [None]);
    assert forall b: Pointer, x :: At(o', b, x) ==> At(o, b, x);
  }

  lemma KeepsRelease(o: Owners, n: nat, c: nat)
    requires Owned(o, n) && c < |o.calls|
    ensures Owned(o.(calls := o.calls[c := None]), n)
  {
    var o' := o.(calls := o.calls[c := None]);
    assert forall b: Pointer, x :: At(o', b, x) ==> At(o, b, x);
  }

  lemma KeepsAllocate(o: Owners, n: nat, c: nat)
    requires Owned(o, n) && c < |o.calls|
    ensures Owned(o.(calls := o.calls[c := Some(n)]), n + 1)
  {
    var o' := o.(calls := o.calls[c := Some(n)]);
    assert forall b: Pointer, x :: At(o', b, x) ==> At(o, b, x) || (b == n && x == WithCall(c));
  }

  /** A successful compare-and-swap, whatever happened since the load. */
  lemma KeepsTake(o: Owners, n: nat, i: nat, c: nat)
    requires Owned(o, n) && i < |o.slots| && o.slots[i].Some? && c < |o.calls|
    ensures Owned(o.(slots := o.slots[i := None], calls := o.calls[c := o.slots[i]]), n)
  {
    var (o', b0) := (o.(slots := o.slots[i := None], calls := o.calls[c := o.slots[i]]), o.slots[i].value);
    assert At(o, b0, InSlot(i));
    assert forall b: Pointer, x :: At(o', b, x) ==> if x == WithCall(c) then b == b0 else At(o, b, x) && x != InSlot(i);
  }

  lemma KeepsSend(o: Owners, n: nat, c: nat)
    requires Owned(o, n) && c < |o.calls| && o.calls[c].Some?
    ensures Owned(o.(queue := o.queue + [o.calls[c].value], calls := o.calls[c := None]), n)
  {
    var b0 := o.calls[c].value;
    var o' := o.(queue := o.queue + [b0], calls := o.calls[c := None]);
    assert At(o, b0, WithCall(c));
    assert forall b: Pointer, x :: At(o', b, x) ==>
        if x == InQueue(|o.queue|) then b == b0 else At(o, b, x) && x != WithCall(c);
  }

  lemma KeepsReceive(o: Owners, n: nat)
    requires Owned(o, n) && o.queue != []
    ensures Owned(o.(queue := o.queue[1..], held := o.held + [o.queue[0]]), n)
  {
    var (o', b0) := (o.(queue := o.queue[1..], held := o.held + [o.queue[0]]), o.queue[0]);
    assert At(o, b0, InQueue(0));
    forall b: Pointer, x | At(o', b, x) ensures At(o, b, CameFrom(o, x)) {}
    assert forall x, y :: CameFrom(o, x) == CameFrom(o, y) && At(o', b0, x) && At(o', b0, y) ==> x == y;
  }

  /** Where a buffer was before the first in the queue went to the consumer. */
  function CameFrom(o: Owners, x: Place): Place {
    match x
    case InQueue(i) => InQueue(i + 1)
    case WithConsumer(i) => if i == |o.held| then InQueue(0) else x
    case _ => x
  }

  /** The consumer gives up its first buffer: to the cache, or to nobody. */
  lemma KeepsPut(o: Owners, n: nat, i: nat)
    requires Owned(o, n) && o.held != [] && i < |o.slots| && o.slots[i].None?
    ensures Owned(o.(slots := o.slots[i := Some(o.held[0])], held := o.held[1..]), n)
  {
    var (o', b0) := (o.(slots := o.slots[i := Some(o.held[0])], held := o.held[1..]), o.held[0]);
    assert At(o, b0, WithConsumer(0));
    forall b: Pointer, x | At(o', b, x) ensures At(o, b, if x == InSlot(i) then WithConsumer(0) else After(x)) {}
  }

  lemma KeepsDrop(o: Owners, n: nat)
    requires Owned(o, n) && o.held != []
    ensures Owned(o.(held := o.held[1..]), n)
  {
    var o' := o.(held := o.held[1..]);
    forall b: Pointer, x | At(o', b, x) ensures At(o, b, After(x)) {}
  }

  function After(x: Place): Place { if x.WithConsumer? then WithConsumer(x.i + 1) else x }
}
