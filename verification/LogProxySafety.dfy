/** What every run of the log writer keeps, whatever the interleaving. */
module LogProxySafety {
  import opened Utf8
  import opened LogProxy
  import opened LogProxyOwnership
  import Sequences

  // ---- buffers ---------------------------------------------------------------------------------

  predicate CallOk(heap: seq<Buf>, call: WriteCall) {
    match call.pc
    case Start => true
    case Scan(i) => |call.arg| <= DEFAULT_LOG_BUFFER_SIZE && i <= SLOTS
    case Loaded(_, _) => |call.arg| <= DEFAULT_LOG_BUFFER_SIZE
    case Taken(b) => |call.arg| <= Lookup(heap, b).cap
    case Ready(b) => Lookup(heap, b).data == call.arg
    case Waiting(b) => Lookup(heap, b).data == call.arg
    case Done(_) => true
  }

  predicate TempOk(first: Option<Pointer>, temp: Bytes) {
    |temp| <= LOG_TEMP_BUFFER_SIZE && (first.Some? ==> temp == [])
  }

  predicate RestOk(heap: seq<Buf>, rest: Rest) {
    match rest
    case ThenCopy(temp, next) => |temp| + |Lookup(heap, next).data| <= LOG_TEMP_BUFFER_SIZE
    case ThenHead(temp) => |temp| <= LOG_TEMP_BUFFER_SIZE
    case ThenTemp(temp, _) => |temp| <= LOG_TEMP_BUFFER_SIZE
    case ThenAwait => true
  }

  /** The scratch buffer is never sliced beyond its capacity. */
  predicate ConsumerOk(heap: seq<Buf>, c: Consumer) {
    match c
    case Await => true
    case Head(first, temp) => TempOk(first, temp)
    case Decide(first, temp, _) => TempOk(first, temp)
    case CopyNext(temp, next) => |temp| + |Lookup(heap, next).data| <= LOG_TEMP_BUFFER_SIZE
    case Flush(first, temp, _) => TempOk(first, temp)
    case FlushTemp(temp, _) => |temp| <= LOG_TEMP_BUFFER_SIZE
    case FlushNext(_) => true
    case Put(_, _, rest) => RestOk(heap, rest)
  }

  ghost predicate BuffersOk(s: State) {
    && (forall b | 0 <= b < |s.heap| :: |s.heap[b].data| <= s.heap[b].cap)
    && (forall i | 0 <= i < SLOTS :: s.slots[i].Some? ==>
          Lookup(s.heap, s.slots[i].value).cap == DEFAULT_LOG_BUFFER_SIZE)
    && (forall c | 0 <= c < |s.calls| :: CallOk(s.heap, s.calls[c]))
    && ConsumerOk(s.heap, s.consumer)
    && |s.queue| <= MAX_LOG_CHAN_SIZE
  }

  // ---- bytes -----------------------------------------------------------------------------------

  function DataOf(heap: seq<Buf>, b: Option<Pointer>): Bytes { if b.Some? then Lookup(heap, b.value).data else [] }

  /** Dequeued bytes that the sink has not seen yet, in the order it will see them. */
  function RestBytes(heap: seq<Buf>, rest: Rest): Bytes {
    match rest
    case ThenCopy(temp, next) => temp + Lookup(heap, next).data
    case ThenHead(temp) => temp
    case ThenTemp(temp, last) => temp + DataOf(heap, last)
    case ThenAwait => []
  }

  function InFlight(heap: seq<Buf>, c: Consumer): Bytes {
    match c
    case Await => []
    case Head(first, temp) => DataOf(heap, first) + temp
    case Decide(first, temp, next) => DataOf(heap, first) + temp + Lookup(heap, next).data
    case CopyNext(temp, next) => temp + Lookup(heap, next).data
    case Flush(first, temp, last) => DataOf(heap, first) + temp + DataOf(heap, last)
    case FlushTemp(temp, last) => temp + DataOf(heap, last)
    case FlushNext(last) => DataOf(heap, last)
    case Put(_, _, rest) => RestBytes(heap, rest)
  }

  function Queued(heap: seq<Buf>, queue: seq<Pointer>): (q: seq<Bytes>)
    ensures |q| == |queue|
  {
    seq(|queue|, (k: nat) requires k < |queue| => Lookup(heap, queue[k]).data)
  }

  function Args(calls: seq<WriteCall>, sent: seq<nat>): (xs: seq<Bytes>)
    requires forall k | 0 <= k < |sent| :: sent[k] < |calls|
    ensures |xs| == |sent|
  {
    seq(|sent|, (k: nat) requires k < |sent| => calls[sent[k]].arg)
  }

  /** The queue holds the last accepted messages; the earlier ones went to the consumer. */
  ghost predicate Delivery(s: State) {
    && (forall k | 0 <= k < |s.sent| :: s.sent[k] < |s.calls|)
    && |s.queue| <= |s.sent|
    && var (n, args) := (|s.sent| - |s.queue|, Args(s.calls, s.sent));
    && Some(Queued(s.heap, s.queue)) == Some(args[n..])
    && Some(Sequences.Concat(s.sink) + InFlight(s.heap, s.consumer)) == Some(Sequences.Concat(args[..n]))
  }

  // ---- verdicts and recycling ------------------------------------------------------------------

  ghost predicate VerdictsOk(s: State) {
    && (forall c | 0 <= c < |s.calls| :: s.calls[c].pc == Done(true) <==> c in s.sent)
    && (forall j, k | 0 <= j < k < |s.sent| :: s.sent[j] != s.sent[k])
    && (forall k | 0 <= k < |s.sent| :: s.sent[k] < |s.calls|)
  }

  function NotOffered(c: Consumer): seq<Pointer> {
    match c
    case Put(_, _, rest) => HeldByRest(rest)
    case _ => HeldByConsumer(c)
  }

  ghost predicate OffersOk(s: State) { Some(s.dequeued) == Some(s.offered + NotOffered(s.consumer)) }

  ghost predicate Inv(s: State) {
    && Owned(OwnersOf(s), |s.heap|)
    && BuffersOk(s)
    && Delivery(s)
    && VerdictsOk(s)
    && OffersOk(s)
  }

  // ---- ownership is kept -------------------------------------------------------------------------

  lemma GotoOwners(s: State, c: nat, pc: Pc)
    requires c < |s.calls|
    ensures OwnersOf(Goto(s, c, pc)) == OwnersOf(s).(calls := OwnersOf(s).calls[c := HeldByCall(pc)])
  {
    CallChanges(s.calls, c, s.calls[c].(pc := pc));
  }

  /** A step that leaves a call with the buffer it had, or with none. */
  lemma OwnedGoto(s: State, c: nat, pc: Pc)
    requires Owned(OwnersOf(s), |s.heap|) && c < |s.calls|
    requires HeldByCall(pc) == None || HeldByCall(pc) == HeldByCall(s.calls[c].pc)
    ensures Owned(OwnersOf(Goto(s, c, pc)), |s.heap|)
  {
    var o := OwnersOf(s);
    GotoOwners(s, c, pc);
    if HeldByCall(pc) == None {
      KeepsRelease(o, |s.heap|, c);
    } else {
      assert o.calls[c := HeldByCall(pc)] == o.calls;
    }
  }

  lemma OwnedAllocate(s: State, c: nat, n: nat)
    requires Owned(OwnersOf(s), |s.heap|) && c < |s.calls|
    ensures Owned(OwnersOf(Allocate(s, c, n)), |s.heap| + 1)
  {
    GotoOwners(s.(heap := s.heap + [Buf(Zeros(n), n)]), c, Taken(|s.heap|));
    KeepsAllocate(OwnersOf(s), |s.heap|, c);
  }

  lemma OwnedTake(s: State, c: nat, i: SlotIndex)
    requires Owned(OwnersOf(s), |s.heap|) && c < |s.calls| && s.slots[i].Some?
    ensures Owned(OwnersOf(Goto(s.(slots := s.slots[i := None]), c, Taken(s.slots[i].value))), |s.heap|)
  {
    GotoOwners(s.(slots := s.slots[i := None]), c, Taken(s.slots[i].value));
    KeepsTake(OwnersOf(s), |s.heap|, i, c);
  }

  lemma OwnedSend(s: State, c: nat, b: Pointer)
    requires Owned(OwnersOf(s), |s.heap|) && c < |s.calls| && HeldByCall(s.calls[c].pc) == Some(b)
    ensures Owned(OwnersOf(Send(s, c, b)), |s.heap|)
  {
    GotoOwners(s.(queue := s.queue + [b], sent := s.sent + [c]), c, Done(true));
    KeepsSend(OwnersOf(s), |s.heap|, c);
  }

  lemma OwnedReceive(s: State, consumer: Consumer)
    requires Owned(OwnersOf(s), |s.heap|) && s.queue != []
    requires HeldByConsumer(consumer) == HeldByConsumer(s.consumer) + [s.queue[0]]
    ensures Owned(OwnersOf(Receive(s).(consumer := consumer)), |s.heap|)
  {
    KeepsReceive(OwnersOf(s), |s.heap|);
  }

  lemma OwnedPut(s: State)
    requires Owned(OwnersOf(s), |s.heap|) && s.consumer.Put?
    ensures Owned(OwnersOf(ConsumerTurn(s)), |s.heap|)
  {
    var (o, i) := (OwnersOf(s), s.consumer.i);
    assert HeldByConsumer(Resume(s.consumer.rest)) == HeldByRest(s.consumer.rest) == o.held[1..];
    if i < SLOTS && s.slots[i].None? { KeepsPut(o, |s.heap|, i); }
    KeepsDrop(o, |s.heap|);
  }

  predicate Receives(s: State) { (s.consumer.Await? || s.consumer.Head?) && s.queue != [] }

  lemma OwnersKept(s: State)
    requires !s.consumer.Put? && !Receives(s)
    ensures OwnersOf(ConsumerTurn(s)) == OwnersOf(s) && ConsumerTurn(s).heap == s.heap
  {
    assert HeldByConsumer(ConsumerTurn(s).consumer) == HeldByConsumer(s.consumer);
  }

  lemma HeldReceived(s: State)
    requires Receives(s)
    ensures var consumer := ConsumerTurn(s).consumer;
            && ConsumerTurn(s) == Receive(s).(consumer := consumer)
            && HeldByConsumer(consumer) == HeldByConsumer(s.consumer) + [s.queue[0]]
  {
  }

  lemma OwnedConsumerTurn(s: State)
    requires Owned(OwnersOf(s), |s.heap|)
    ensures Owned(OwnersOf(ConsumerTurn(s)), |ConsumerTurn(s).heap|)
  {
    if s.consumer.Put? {
      OwnedPut(s);
    } else if Receives(s) {
      HeldReceived(s);
      OwnedReceive(s, ConsumerTurn(s).consumer);
    } else {
      OwnersKept(s);
    }
  }

  // ---- a call keeps the other buffers ------------------------------------------------------------

  /** Buffers that call c does not hold are the same in another heap. */
  ghost predicate KeptExcept(s: State, heap: seq<Buf>, c: nat) {
    forall b: Pointer, x :: At(OwnersOf(s), b, x) && x != WithCall(c) ==> Lookup(heap, b) == Lookup(s.heap, b)
  }

  lemma CopyKeeps(s: State, c: nat, b: Pointer, buf: Buf)
    requires Owned(OwnersOf(s), |s.heap|) && c < |s.calls| && HeldByCall(s.calls[c].pc) == Some(b) && b < |s.heap|
    ensures KeptExcept(s, s.heap[b := buf], c)
  {
    assert At(OwnersOf(s), b, WithCall(c));
  }

  lemma GrowKeeps(s: State, c: nat, buf: Buf)
    requires Owned(OwnersOf(s), |s.heap|)
    ensures KeptExcept(s, s.heap + [buf], c)
  {
  }

  lemma KeptData(s: State, heap: seq<Buf>, c: nat)
    requires KeptExcept(s, heap, c)
    ensures InFlight(heap, s.consumer) == InFlight(s.heap, s.consumer)
    ensures ConsumerOk(heap, s.consumer) <==> ConsumerOk(s.heap, s.consumer)
    ensures Queued(heap, s.queue) == Queued(s.heap, s.queue)
  {
    var (o, held) := (OwnersOf(s), HeldByConsumer(s.consumer));
    forall k | 0 <= k < |held| ensures Lookup(heap, held[k]) == Lookup(s.heap, held[k]) {
      assert At(o, held[k], WithConsumer(k));
    }
    forall k | 0 <= k < |s.queue| ensures Lookup(heap, s.queue[k]) == Lookup(s.heap, s.queue[k]) {
      assert At(o, s.queue[k], InQueue(k));
    }
    HeldData(s.heap, heap, s.consumer);
  }

  lemma HeldData(heap: seq<Buf>, heap': seq<Buf>, c: Consumer)
    requires var held := HeldByConsumer(c);
             forall k | 0 <= k < |held| :: Lookup(heap', held[k]) == Lookup(heap, held[k])
    ensures InFlight(heap', c) == InFlight(heap, c)
    ensures ConsumerOk(heap', c) <==> ConsumerOk(heap, c)
  {
    var held := HeldByConsumer(c);
    match c {
      case Decide(first, _, next) => assert held[|held| - 1] == next && (first.Some? ==> held[0] == first.value);
      case CopyNext(_, next) => assert held[0] == next;
      case Flush(first, _, last) =>
        assert (last.Some? ==> held[|held| - 1] == last.value) && (first.Some? ==> held[0] == first.value);
      case Put(_, _, rest) => assert HeldByRest(rest) != [] ==> held[1] == HeldByRest(rest)[0];
      case Head(first, _) => assert first.Some? ==> held[0] == first.value;
      case FlushTemp(_, last) => assert last.Some? ==> held[0] == last.value;
      case FlushNext(last) => assert last.Some? ==> held[0] == last.value;
      case Await =>
    }
  }

  // ---- steps of a call ---------------------------------------------------------------------------

  lemma BuffersGoto(s: State, heap: seq<Buf>, c: nat, pc: Pc)
    requires BuffersOk(s) && c < |s.calls| && KeptExcept(s, heap, c)
    requires CallOk(heap, WriteCall(s.calls[c].arg, pc))
    requires forall b | 0 <= b < |heap| :: |heap[b].data| <= heap[b].cap
    ensures BuffersOk(Goto(s.(heap := heap), c, pc))
  {
    var (o, s') := (OwnersOf(s), Goto(s.(heap := heap), c, pc));
    KeptData(s, heap, c);
    forall i | 0 <= i < SLOTS && s.slots[i].Some?
      ensures Lookup(heap, s.slots[i].value).cap == DEFAULT_LOG_BUFFER_SIZE
    {
      assert At(o, s.slots[i].value, InSlot(i));
    }
    forall d | 0 <= d < |s.calls| ensures CallOk(heap, s'.calls[d]) {
      if d != c && HeldByCall(s.calls[d].pc).Some? {
        assert At(o, HeldByCall(s.calls[d].pc).value, WithCall(d));
      }
    }
  }

  lemma ArgsKept(calls: seq<WriteCall>, calls': seq<WriteCall>, sent: seq<nat>)
    requires forall k | 0 <= k < |sent| :: sent[k] < |calls| <= |calls'|
    requires forall c | 0 <= c < |calls| <= |calls'| :: calls'[c].arg == calls[c].arg
    ensures Some(Args(calls', sent)) == Some(Args(calls, sent))
  {
    assert |sent| > 0 ==> sent[0] < |calls|;
    assert Args(calls', sent) == Args(calls, sent);
  }

  lemma DeliveryGoto(s: State, heap: seq<Buf>, c: nat, pc: Pc)
    requires Delivery(s) && c < |s.calls| && KeptExcept(s, heap, c)
    ensures Delivery(Goto(s.(heap := heap), c, pc))
  {
    KeptData(s, heap, c);
    ArgsKept(s.calls, Goto(s, c, pc).calls, s.sent);
  }

  lemma DeliverySend(s: State, c: nat, b: Pointer)
    requires Delivery(s) && c < |s.calls| && Lookup(s.heap, b).data == s.calls[c].arg
    ensures Delivery(Send(s, c, b))
  {
    var (s', n, args) := (Send(s, c, b), |s.sent| - |s.queue|, Args(s.calls, s.sent));
    ArgsKept(s.calls, s'.calls, s.sent);
    assert Args(s'.calls, s'.sent) == args + [s.calls[c].arg];
    assert Queued(s.heap, s'.queue) == Queued(s.heap, s.queue) + [s.calls[c].arg];
    assert (args + [s.calls[c].arg])[..n] == args[..n];
    assert (args + [s.calls[c].arg])[n..] == args[n..] + [s.calls[c].arg];
  }

  lemma VerdictsGoto(s: State, c: nat, pc: Pc)
    requires VerdictsOk(s) && c < |s.calls| && s.calls[c].pc != Done(true) && pc != Done(true)
    ensures VerdictsOk(Goto(s, c, pc))
  {
  }

  lemma VerdictsSend(s: State, c: nat, b: Pointer)
    requires VerdictsOk(s) && c < |s.calls| && s.calls[c].pc != Done(true)
    ensures VerdictsOk(Send(s, c, b))
  {
    var s' := Send(s, c, b);
    assert forall d :: d in s'.sent <==> d in s.sent || d == c;
  }

  /** A step that neither sends nor moves a buffer between the cache and the call. */
  lemma InvGoto(s: State, heap: seq<Buf>, c: nat, pc: Pc)
    requires Inv(s) && c < |s.calls| && s.calls[c].pc != Done(true) && pc != Done(true) && KeptExcept(s, heap, c)
    requires CallOk(heap, WriteCall(s.calls[c].arg, pc))
    requires forall b | 0 <= b < |heap| :: |heap[b].data| <= heap[b].cap
    requires Owned(OwnersOf(Goto(s.(heap := heap), c, pc)), |heap|)
    ensures Inv(Goto(s.(heap := heap), c, pc))
  {
    BuffersGoto(s, heap, c, pc);
    DeliveryGoto(s, heap, c, pc);
    VerdictsGoto(s, c, pc);
  }

  lemma InvMove(s: State, c: nat, pc: Pc)
    requires Inv(s) && c < |s.calls| && s.calls[c].pc != Done(true) && pc != Done(true)
    requires CallOk(s.heap, WriteCall(s.calls[c].arg, pc))
    requires HeldByCall(pc) == None || HeldByCall(pc) == HeldByCall(s.calls[c].pc)
    ensures Inv(Goto(s, c, pc))
  {
    OwnedGoto(s, c, pc);
    InvGoto(s, s.heap, c, pc);
  }

  lemma InvAllocate(s: State, c: nat, n: nat)
    requires Inv(s) && c < |s.calls| && s.calls[c].pc != Done(true) && |s.calls[c].arg| <= n
    ensures Inv(Allocate(s, c, n))
  {
    OwnedAllocate(s, c, n);
    GrowKeeps(s, c, Buf(Zeros(n), n));
    InvGoto(s, s.heap + [Buf(Zeros(n), n)], c, Taken(|s.heap|));
  }

  /** A compare-and-swap that succeeds gives the call a buffer of the cache's capacity, and sole
      ownership of it, even if the buffer left the slot and came back since it was loaded. */
  lemma InvTake(s: State, c: nat, i: SlotIndex)
    requires Inv(s) && c < |s.calls| && s.slots[i].Some?
    requires s.calls[c].pc == Loaded(i, s.slots[i].value)
    ensures Inv(CallTurn(s, c))
  {
    var (s1, b) := (s.(slots := s.slots[i := None]), s.slots[i].value);
    OwnedTake(s, c, i);
    assert |s.calls[c].arg| <= Lookup(s.heap, b).cap by { assert CallOk(s.heap, s.calls[c]); }
    BuffersGoto(s1, s.heap, c, Taken(b));
    DeliveryGoto(s1, s.heap, c, Taken(b));
    VerdictsGoto(s1, c, Taken(b));
  }

  lemma InvCopy(s: State, c: nat, b: Pointer)
    requires Inv(s) && c < |s.calls| && s.calls[c].pc == Taken(b)
    ensures Inv(CallTurn(s, c))
  {
    assert At(OwnersOf(s), b, WithCall(c)) && CallOk(s.heap, s.calls[c]);
    var buf := Copied(s.heap[b], s.calls[c].arg);
    CopyKeeps(s, c, b, buf);
    OwnedGoto(s.(heap := s.heap[b := buf]), c, Ready(b));
    InvGoto(s, s.heap[b := buf], c, Ready(b));
  }

  lemma BuffersSend(s: State, c: nat, b: Pointer)
    requires BuffersOk(s) && c < |s.calls| && |s.queue| < MAX_LOG_CHAN_SIZE
    ensures BuffersOk(Send(s, c, b))
  {
    var s' := Send(s, c, b);
    forall d | 0 <= d < |s.calls| ensures CallOk(s.heap, s'.calls[d]) {
      assert CallOk(s.heap, s.calls[d]);
    }
  }

  lemma InvSend(s: State, c: nat, b: Pointer)
    requires Inv(s) && c < |s.calls| && s.calls[c].pc in {Ready(b), Waiting(b)} && |s.queue| < MAX_LOG_CHAN_SIZE
    ensures Inv(Send(s, c, b))
  {
    assert CallOk(s.heap, s.calls[c]);
    BuffersSend(s, c, b);
    OwnedSend(s, c, b);
    DeliverySend(s, c, b);
    VerdictsSend(s, c, b);
  }

  lemma InvStart(s: State, c: nat)
    requires Inv(s) && c < |s.calls| && s.calls[c].pc == Start
    ensures Inv(CallTurn(s, c))
  {
    var arg := s.calls[c].arg;
    if |arg| > DEFAULT_LOG_BUFFER_SIZE { InvAllocate(s, c, |arg|); } else { InvMove(s, c, Scan(0)); }
  }

  lemma InvScan(s: State, c: nat, i: nat)
    requires Inv(s) && c < |s.calls| && s.calls[c].pc == Scan(i)
    ensures Inv(CallTurn(s, c))
  {
    assert CallOk(s.heap, s.calls[c]);
    if i >= SLOTS { InvAllocate(s, c, DEFAULT_LOG_BUFFER_SIZE); } else { InvLook(s, c, i); }
  }

  lemma InvLook(s: State, c: nat, i: SlotIndex)
    requires Inv(s) && c < |s.calls| && s.calls[c].pc == Scan(i)
    ensures Inv(CallTurn(s, c))
  {
    assert CallOk(s.heap, s.calls[c]);
    var pc := if s.slots[i].None? then Scan(i + 1) else Loaded(i, s.slots[i].value);
    assert CallTurn(s, c) == Goto(s, c, pc);
    InvMove(s, c, pc);
  }

  lemma InvLoaded(s: State, c: nat, i: SlotIndex, seen: Pointer)
    requires Inv(s) && c < |s.calls| && s.calls[c].pc == Loaded(i, seen)
    ensures Inv(CallTurn(s, c))
  {
    assert CallOk(s.heap, s.calls[c]);
    if s.slots[i] == Some(seen) {
      InvTake(s, c, i);
    } else {
      assert CallTurn(s, c) == Goto(s, c, Scan(i + 1));
      InvMove(s, c, Scan(i + 1));
    }
  }

  lemma InvOffer(s: State, c: nat, b: Pointer)
    requires Inv(s) && c < |s.calls| && s.calls[c].pc in {Ready(b), Waiting(b)}
    ensures Inv(CallTurn(s, c))
  {
    assert CallOk(s.heap, s.calls[c]);
    if |s.queue| < MAX_LOG_CHAN_SIZE { InvSend(s, c, b); } else { InvMove(s, c, Waiting(b)); }
  }

  lemma InvCallTurn(s: State, c: nat)
    requires Inv(s) && c < |s.calls|
    ensures Inv(CallTurn(s, c))
  {
    match s.calls[c].pc {
      case Start => InvStart(s, c);
      case Scan(i) => InvScan(s, c, i);
      case Loaded(i, seen) => InvLoaded(s, c, i, seen);
      case Taken(b) => InvCopy(s, c, b);
      case Ready(b) => InvOffer(s, c, b);
      case Waiting(b) => InvOffer(s, c, b);
      case Done(_) =>
    }
  }

  lemma BuffersBegin(s: State, arg: Bytes)
    requires BuffersOk(s)
    ensures BuffersOk(Next(s, Begin(arg)))
  {
    var s' := Next(s, Begin(arg));
    forall d | 0 <= d < |s'.calls| ensures CallOk(s.heap, s'.calls[d]) {
      if d < |s.calls| { assert CallOk(s.heap, s.calls[d]); }
    }
  }

  lemma VerdictsBegin(s: State, arg: Bytes)
    requires VerdictsOk(s)
    ensures VerdictsOk(Next(s, Begin(arg)))
  {
  }

  lemma InvBegin(s: State, arg: Bytes)
    requires Inv(s)
    ensures Inv(Next(s, Begin(arg)))
  {
    CallAdded(s.calls, WriteCall(arg, Start));
    KeepsBegin(OwnersOf(s), |s.heap|);
    BuffersBegin(s, arg);
    VerdictsBegin(s, arg);
    ArgsKept(s.calls, Next(s, Begin(arg)).calls, s.sent);
  }

  // ---- steps of the consumer -----------------------------------------------------------------------

  lemma BuffersConsumer(s: State)
    requires BuffersOk(s)
    ensures BuffersOk(ConsumerTurn(s))
  {
    var s' := ConsumerTurn(s);
    assert s'.heap == s.heap && s'.calls == s.calls && |s'.queue| <= |s.queue|;
    ConsumerNext(s);
  }

  lemma ConsumerNext(s: State)
    requires ConsumerOk(s.heap, s.consumer)
    ensures ConsumerOk(s.heap, ConsumerTurn(s).consumer)
  {
  }

  lemma FlowReceive(s: State)
    requires Receives(s)
    ensures Some(InFlight(s.heap, ConsumerTurn(s).consumer))
            == Some(InFlight(s.heap, s.consumer) + Data(s, s.queue[0]))
  {
    var x := Data(s, s.queue[0]);
    if s.consumer.Await? { assert x + [] == [] + x; }
  }

  predicate Writes(s: State) { s.consumer.Flush? || s.consumer.FlushTemp? || s.consumer.FlushNext? }

  /** Text moves from the front of one to the back of the other. */
  lemma Moved(sink: seq<Bytes>, w: Bytes, rest: Bytes)
    ensures Some(Sequences.Concat(sink + [w]) + rest) == Some(Sequences.Concat(sink) + (w + rest))
  {
    Sequences.ConcatLast(sink, w);
    Sequences.Assoc(Sequences.Concat(sink), w, rest);
  }

  /** Bytes leave the in-flight text at its front, into the sink. */
  lemma FlowWrite(s: State)
    requires Writes(s)
    ensures var s' := ConsumerTurn(s);
            Some(Sequences.Concat(s'.sink) + InFlight(s.heap, s'.consumer))
            == Some(Sequences.Concat(s.sink) + InFlight(s.heap, s.consumer))
  {
    match s.consumer {
      case Flush(None, temp, last) => assert [] + temp == temp;
      case Flush(Some(b), temp, last) =>
        Moved(s.sink, Data(s, b), temp + DataOf(s.heap, last));
        Sequences.Assoc(Data(s, b), temp, DataOf(s.heap, last));
      case FlushTemp(temp, last) =>
        Moved(s.sink, temp, DataOf(s.heap, last));
        if temp == [] { assert temp + DataOf(s.heap, last) == DataOf(s.heap, last); }
      case FlushNext(None) =>
      case FlushNext(Some(b)) =>
        Moved(s.sink, Data(s, b), []);
        assert Data(s, b) + [] == Data(s, b);
    }
  }

  lemma FlowSilent(s: State)
    requires ConsumerOk(s.heap, s.consumer) && !Receives(s) && !Writes(s)
    ensures var s' := ConsumerTurn(s);
            s'.sink == s.sink && Some(InFlight(s.heap, s'.consumer)) == Some(InFlight(s.heap, s.consumer))
  {
    match s.consumer {
      case Head(first, temp) => assert InFlight(s.heap, s.consumer) + [] == InFlight(s.heap, s.consumer);
      case Decide(None, temp, next) => assert [] + temp == temp;
      case Decide(Some(b), temp, next) => assert Data(s, b) + temp == temp + Data(s, b);
      case CopyNext(temp, next) =>
      case Put(b, i, ThenHead(temp)) => assert [] + temp == temp;
      case _ =>
    }
  }

  lemma NextArg(out: Bytes, inFlight: Bytes, args: seq<Bytes>, n: nat)
    requires n < |args| && Some(out + inFlight) == Some(Sequences.Concat(args[..n]))
    ensures Some(out + (inFlight + args[n])) == Some(Sequences.Concat(args[..n + 1]))
    ensures args[n..] != [] && args[n..][0] == args[n] && Some(args[n..][1..]) == Some(args[n + 1..])
  {
    Sequences.ConcatLast(args[..n], args[n]);
    assert args[..n + 1] == args[..n] + [args[n]];
    Sequences.Assoc(out, inFlight, args[n]);
    assert args[n..][1..] == args[n + 1..];
  }

  lemma DeliveryReceive(s: State)
    requires Delivery(s) && Receives(s)
    ensures Delivery(ConsumerTurn(s))
  {
    var (s', n, args) := (ConsumerTurn(s), |s.sent| - |s.queue|, Args(s.calls, s.sent));
    FlowReceive(s);
    HeldReceived(s);
    NextArg(Sequences.Concat(s.sink), InFlight(s.heap, s.consumer), args, n);
    var queued := Queued(s.heap, s.queue);
    assert queued[1..] == Queued(s.heap, s'.queue);
    assert Data(s, s.queue[0]) == queued[0] == args[n];
  }

  lemma ConsumerFrame(s: State)
    requires !Receives(s)
    ensures var s' := ConsumerTurn(s);
            s'.heap == s.heap && s'.queue == s.queue && s'.calls == s.calls && s'.sent == s.sent
  {
  }

  lemma DeliveryConsumer(s: State)
    requires Delivery(s) && ConsumerOk(s.heap, s.consumer)
    ensures Delivery(ConsumerTurn(s))
  {
    if Receives(s) {
      DeliveryReceive(s);
    } else {
      ConsumerFrame(s);
      if Writes(s) { FlowWrite(s); } else { FlowSilent(s); }
    }
  }

  lemma OffersConsumer(s: State)
    requires OffersOk(s)
    ensures OffersOk(ConsumerTurn(s))
  {
    var (c, c') := (s.consumer, ConsumerTurn(s).consumer);
    if Receives(s) {
      HeldReceived(s);
      Sequences.Assoc(s.offered, NotOffered(c), [s.queue[0]]);
    } else if c.Put? {
      assert NotOffered(c') == NotOffered(c);
    } else if c'.Put? {
      assert NotOffered(c) == [c'.buf] + NotOffered(c');
      Sequences.Assoc(s.offered, [c'.buf], NotOffered(c'));
    } else {
      assert NotOffered(c') == NotOffered(c);
    }
  }

  lemma VerdictsConsumer(s: State)
    requires VerdictsOk(s)
    ensures VerdictsOk(ConsumerTurn(s))
  {
    assert ConsumerTurn(s).calls == s.calls && ConsumerTurn(s).sent == s.sent;
  }

  lemma InvConsumerTurn(s: State)
    requires Inv(s)
    ensures Inv(ConsumerTurn(s))
  {
    var s' := ConsumerTurn(s);
    assert Owned(OwnersOf(s'), |s'.heap|) by { OwnedConsumerTurn(s); }
    assert BuffersOk(s') by { BuffersConsumer(s); }
    assert Delivery(s') by { DeliveryConsumer(s); }
    assert VerdictsOk(s') by { VerdictsConsumer(s); }
    assert OffersOk(s') by { OffersConsumer(s); }
  }

  // ---- every run ---------------------------------------------------------------------------------

  lemma InvTurn(s: State, c: nat)
    requires Inv(s)
    ensures Inv(Next(s, Turn(c)))
  {
    if c < |s.calls| { InvCallTurn(s, c); }
  }

  lemma InvTimeOut(s: State, c: nat)
    requires Inv(s)
    ensures Inv(Next(s, TimeOut(c)))
  {
    if c < |s.calls| && s.calls[c].pc.Waiting? { InvMove(s, c, Done(false)); }
  }

  lemma InvNext(s: State, a: Action)
    requires Inv(s)
    ensures Inv(Next(s, a))
  {
    match a {
      case Begin(arg) => InvBegin(s, arg);
      case Turn(c) => InvTurn(s, c);
      case TimeOut(c) => InvTimeOut(s, c);
      case Consume => InvConsumerTurn(s);
    }
  }

  lemma {:induction false} InvRun(s: State, actions: seq<Action>)
    requires Inv(s)
    ensures Inv(Run(s, actions))
    decreases |actions|
  {
    if actions != [] {
      InvNext(s, actions[0]);
      InvRun(Next(s, actions[0]), actions[1..]);
    }
  }

  lemma DeliveryInit()
    ensures Delivery(Init())
  {
    var args := Args(Init().calls, Init().sent);
    assert |args| == 0 && args[0..] == args && args[..0] == args;
    assert Queued(Init().heap, Init().queue) == args;
    assert Sequences.Concat(Init().sink) + InFlight(Init().heap, Init().consumer) == Sequences.Concat(args);
  }

  lemma OwnedInit()
    ensures Owned(OwnersOf(Init()), 0)
  {
    assert forall b: Pointer, x :: !At(OwnersOf(Init()), b, x);
  }

  lemma BuffersInit()
    ensures BuffersOk(Init())
  {
  }

  lemma HistoryInit()
    ensures VerdictsOk(Init()) && OffersOk(Init())
  {
    assert Init().offered + NotOffered(Init().consumer) == Init().dequeued;
  }

  lemma InvInit()
    ensures Inv(Init())
  {
    assert Owned(OwnersOf(Init()), |Init().heap|) by { OwnedInit(); }
    assert BuffersOk(Init()) by { BuffersInit(); }
    assert Delivery(Init()) by { DeliveryInit(); }
    assert VerdictsOk(Init()) && OffersOk(Init()) by { HistoryInit(); }
  }

  /** Every reachable state keeps the invariant. */
  lemma Reachable(actions: seq<Action>)
    ensures Inv(Run(Init(), actions))
  {
    InvInit();
    InvRun(Init(), actions);
  }

  // ---- what that means ---------------------------------------------------------------------------

  /** In every reachable state a buffer has at most one owner among the cache slots, the channel,
      the calls and the consumer, and it is an allocated buffer. */
  lemma UniqueOwner(actions: seq<Action>, b: Pointer, x: Place, y: Place)
    requires var o := OwnersOf(Run(Init(), actions)); At(o, b, x) && At(o, b, y)
    ensures x == y && b < |Run(Init(), actions).heap|
  {
    assert Owned(OwnersOf(Run(Init(), actions)), |Run(Init(), actions).heap|) by { Reachable(actions); }
  }

  /** A call that wins the compare-and-swap owns the buffer alone, whatever happened to that
      buffer between the load and the swap; and the buffer is large enough for the message. */
  lemma StaleLoadTransfers(actions: seq<Action>, c: nat, y: Place)
    requires var s := Run(Init(), actions);
             && c < |s.calls| && s.calls[c].pc.Loaded?
             && s.slots[s.calls[c].pc.slot] == Some(s.calls[c].pc.seen)
    ensures var (s, s') := (Run(Init(), actions), Next(Run(Init(), actions), Turn(c)));
            && s'.calls[c].pc == Taken(s.calls[c].pc.seen)
            && (At(OwnersOf(s'), s.calls[c].pc.seen, y) <==> y == WithCall(c))
            && |s.calls[c].arg| <= Lookup(s'.heap, s.calls[c].pc.seen).cap == DEFAULT_LOG_BUFFER_SIZE
  {
    Reachable(actions);
    TakeTransfers(Run(Init(), actions), c, y);
  }

  lemma TakeTransfers(s: State, c: nat, y: Place)
    requires Inv(s) && c < |s.calls| && s.calls[c].pc.Loaded?
    requires s.slots[s.calls[c].pc.slot] == Some(s.calls[c].pc.seen)
    ensures var (s', b) := (CallTurn(s, c), s.calls[c].pc.seen);
            && s'.calls[c].pc == Taken(b) && (At(OwnersOf(s'), b, y) <==> y == WithCall(c))
            && |s.calls[c].arg| <= Lookup(s'.heap, b).cap == DEFAULT_LOG_BUFFER_SIZE
  {
    var (s', b) := (CallTurn(s, c), s.calls[c].pc.seen);
    assert CallOk(s.heap, s.calls[c]);
    assert Owned(OwnersOf(s'), |s'.heap|) by { OwnedTake(s, c, s.calls[c].pc.slot); }
    assert At(OwnersOf(s'), b, WithCall(c));
  }

  /** Nothing is lost, duplicated, reordered or overwritten: the sink's bytes, then the
      consumer's, then those of the queued buffers, are the accepted messages in the order in
      which they were accepted. */
  lemma Conservation(actions: seq<Action>)
    ensures var s := Run(Init(), actions);
            && (forall k | 0 <= k < |s.sent| :: s.sent[k] < |s.calls|)
            && Some(Sequences.Concat(s.sink) + InFlight(s.heap, s.consumer)
                    + Sequences.Concat(Queued(s.heap, s.queue)))
               == Some(Sequences.Concat(Args(s.calls, s.sent)))
  {
    assert Delivery(Run(Init(), actions)) by { Reachable(actions); }
    Conserved(Run(Init(), actions));
  }

  lemma Conserved(s: State)
    requires Delivery(s)
    ensures Some(Sequences.Concat(s.sink) + InFlight(s.heap, s.consumer) + Sequences.Concat(Queued(s.heap, s.queue)))
            == Some(Sequences.Concat(Args(s.calls, s.sent)))
  {
    var (n, args) := (|s.sent| - |s.queue|, Args(s.calls, s.sent));
    Sequences.ConcatJoin(args[..n], args[n..]);
    assert args[..n] + args[n..] == args;
  }

  /** A call has returned its length and no error exactly when its message was enqueued, once,
      in a buffer that held exactly the message; and the queue still holds the exact messages. */
  lemma ExactVerdict(actions: seq<Action>, c: nat)
    requires c < |Run(Init(), actions).calls|
    ensures var s := Run(Init(), actions);
            && (s.calls[c].pc == Done(true) <==> c in s.sent)
            && (forall j, k | 0 <= j < k < |s.sent| :: s.sent[j] != s.sent[k])
            && (s.calls[c].pc.Ready? || s.calls[c].pc.Waiting? ==>
                  Lookup(s.heap, s.calls[c].pc.buf).data == s.calls[c].arg)
  {
    var s := Run(Init(), actions);
    assert VerdictsOk(s) && CallOk(s.heap, s.calls[c]) by { Reachable(actions); }
  }

  /** A verdict is final: a call that failed is never enqueued later, so none of its bytes are
      among those that Conservation accounts for. */
  lemma {:induction false} VerdictFinal(s: State, actions: seq<Action>, c: nat)
    requires Inv(s) && c < |s.calls| && s.calls[c].pc.Done?
    ensures var s' := Run(s, actions); c < |s'.calls| && s'.calls[c] == s.calls[c] && (c in s'.sent <==> c in s.sent)
    decreases |actions|
  {
    if actions != [] {
      InvNext(s, actions[0]);
      CallKept(s, actions[0], c);
      VerdictFinal(Next(s, actions[0]), actions[1..], c);
    } else {
      assert s.calls[c].pc == Done(true) <==> c in s.sent;
    }
  }

  lemma CallKept(s: State, a: Action, c: nat)
    requires c < |s.calls| && s.calls[c].pc.Done?
    ensures c < |Next(s, a).calls| && Next(s, a).calls[c] == s.calls[c]
  {
    match a {
      case Begin(_) =>
      case Turn(d) => if d < |s.calls| { assert |CallTurn(s, d).calls| == |s.calls|; }
      case TimeOut(_) =>
      case Consume => assert ConsumerTurn(s).calls == s.calls;
    }
  }

  /** Each dequeued buffer is handed back at most once, in order: what is not handed back is what
      the consumer still holds. */
  lemma OfferedOnce(actions: seq<Action>)
    ensures var s := Run(Init(), actions);
            Some(s.dequeued) == Some(s.offered + NotOffered(s.consumer)) && |NotOffered(s.consumer)| <= 2
  {
    assert OffersOk(Run(Init(), actions)) by { Reachable(actions); }
  }

  /** Cached buffers have the default capacity, a buffer given to a call has room for its
      message, no buffer holds more than its capacity, and the scratch buffer is never filled
      beyond its own. */
  lemma Capacities(actions: seq<Action>)
    ensures var s := Run(Init(), actions);
            && (forall i | 0 <= i < SLOTS :: s.slots[i].Some? ==>
                  Lookup(s.heap, s.slots[i].value).cap == DEFAULT_LOG_BUFFER_SIZE)
            && (forall b | 0 <= b < |s.heap| :: |s.heap[b].data| <= s.heap[b].cap)
            && (forall c | 0 <= c < |s.calls| && s.calls[c].pc.Taken? ::
                  |s.calls[c].arg| <= Lookup(s.heap, s.calls[c].pc.buf).cap)
            && ConsumerOk(s.heap, s.consumer) && |s.queue| <= MAX_LOG_CHAN_SIZE
  {
    var s := Run(Init(), actions);
    assert BuffersOk(s) by { Reachable(actions); }
    forall c | 0 <= c < |s.calls| && s.calls[c].pc.Taken?
      ensures |s.calls[c].arg| <= Lookup(s.heap, s.calls[c].pc.buf).cap
    {
      assert CallOk(s.heap, s.calls[c]);
    }
  }
}
