/** Where the sink writes of the log writer begin and end, in every run: each is a run of whole
    messages. */
module LogProxyWrites {
  import opened Utf8
  import opened LogProxy
  import opened LogProxyOwnership
  import opened LogProxySafety
  import Sequences

  /** The messages with numbers from `from` up to `to`, in the order of acceptance. */
  datatype Group = Group(from: nat, to: nat)

  function End(groups: seq<Group>): nat { if groups == [] then 0 else groups[|groups| - 1].to }

  /** How many messages the consumer has dequeued, the ones in buffers it still has not counted. */
  function Handled(s: State): nat {
    if |s.dequeued| >= |NotOffered(s.consumer)| then |s.dequeued| - |NotOffered(s.consumer)| else 0
  }

  /** Observed beside a run: which messages each write holds. */
  function GroupsNext(s: State, groups: seq<Group>, a: Action): seq<Group> {
    var n := Handled(s);
    if |Next(s, a).sink| == |s.sink| then groups
    else groups + [if s.consumer.FlushTemp? then Group(End(groups), n) else Group(n, n + 1)]
  }

  function GroupsRun(s: State, groups: seq<Group>, actions: seq<Action>): seq<Group>
    decreases |actions|
  {
    if actions == [] then groups else GroupsRun(Next(s, actions[0]), GroupsNext(s, groups, actions[0]), actions[1..])
  }

  // ---- groups ------------------------------------------------------------------------------------

  /** Messages `from` up to `to`, joined. */
  function Text(args: seq<Bytes>, from: nat, to: nat): Bytes
    requires from <= to <= |args|
  {
    Sequences.Concat(args[from..to])
  }

  lemma TextNext(args: seq<Bytes>, from: nat, to: nat)
    requires from <= to < |args|
    ensures Some(Text(args, from, to + 1)) == Some(Text(args, from, to) + args[to])
  {
    assert args[from..to + 1] == args[from..to] + [args[to]];
    Sequences.ConcatLast(args[from..to], args[to]);
  }

  lemma TextOne(args: seq<Bytes>, n: nat)
    requires n < |args|
    ensures Some(Text(args, n, n + 1)) == Some(args[n]) && Text(args, n, n) == []
  {
    TextNext(args, n, n);
    assert args[n..n] == [] && [] + args[n] == args[n];
  }

  lemma TextJoin(args: seq<Bytes>, from: nat, mid: nat, to: nat)
    requires from <= mid <= to <= |args|
    ensures Some(Text(args, from, to)) == Some(Text(args, from, mid) + Text(args, mid, to))
  {
    assert args[from..to] == args[from..mid] + args[mid..to];
    Sequences.ConcatJoin(args[from..mid], args[mid..to]);
  }

  lemma TextMore(args: seq<Bytes>, more: seq<Bytes>, from: nat, to: nat)
    requires from <= to <= |args|
    ensures Some(Text(args + more, from, to)) == Some(Text(args, from, to))
  {
    assert (args + more)[from..to] == args[from..to];
  }

  predicate Blank(args: seq<Bytes>, from: nat, to: nat) {
    from <= to <= |args| && forall m | from <= m < to :: args[m] == []
  }

  lemma {:induction false} TextBlank(args: seq<Bytes>, from: nat, to: nat)
    requires from <= to <= |args|
    ensures Text(args, from, to) == [] <==> Blank(args, from, to)
  {
    if from < to {
      TextNext(args, from, to - 1);
      TextBlank(args, from, to - 1);
    }
  }

  /** A write holds exactly the messages of its group, joined; if it is longer than the scratch
      buffer, that is one message; and the messages between `end` and the group are empty. */
  predicate WholeWrite(args: seq<Bytes>, w: Bytes, end: nat, g: Group) {
    && g.from < g.to <= |args|
    && Some(w) == Some(Text(args, g.from, g.to))
    && (|w| > LOG_TEMP_BUFFER_SIZE ==> g.to == g.from + 1)
    && Blank(args, end, g.from)
  }

  /** Each write is such a one behind the write before it. */
  predicate WholesOk(args: seq<Bytes>, sink: seq<Bytes>, groups: seq<Group>)
    decreases |sink|
  {
    && |groups| == |sink| && End(groups) <= |args|
    && (sink != [] ==>
          var n := |sink| - 1;
          WholesOk(args, sink[..n], groups[..n]) && WholeWrite(args, sink[n], End(groups[..n]), groups[n]))
  }

  /** The same for each write by its number. */
  predicate WholeWrites(args: seq<Bytes>, sink: seq<Bytes>, groups: seq<Group>) {
    && |groups| == |sink|
    && forall k | 0 <= k < |sink| :: WholeWrite(args, sink[k], End(groups[..k]), groups[k])
  }

  lemma {:induction false} WholeAt(args: seq<Bytes>, sink: seq<Bytes>, groups: seq<Group>, k: nat)
    requires WholesOk(args, sink, groups) && k < |sink|
    ensures WholeWrite(args, sink[k], End(groups[..k]), groups[k])
    decreases |sink|
  {
    var n := |sink| - 1;
    if k < n {
      WholeAt(args, sink[..n], groups[..n], k);
      assert groups[..n][..k] == groups[..k];
    }
  }

  lemma WholeMore(args: seq<Bytes>, more: seq<Bytes>, w: Bytes, end: nat, g: Group)
    requires WholeWrite(args, w, end, g)
    ensures WholeWrite(args + more, w, end, g)
  {
    TextMore(args, more, g.from, g.to);
  }

  lemma {:induction false} WholesMore(args: seq<Bytes>, more: seq<Bytes>, sink: seq<Bytes>, groups: seq<Group>)
    requires WholesOk(args, sink, groups)
    ensures WholesOk(args + more, sink, groups)
    decreases |sink|
  {
    if sink != [] {
      var n := |sink| - 1;
      WholesMore(args, more, sink[..n], groups[..n]);
      WholeMore(args, more, sink[n], End(groups[..n]), groups[n]);
    }
  }

  lemma WholesLast(args: seq<Bytes>, sink: seq<Bytes>, groups: seq<Group>, w: Bytes, g: Group)
    requires WholesOk(args, sink, groups) && WholeWrite(args, w, End(groups), g)
    ensures WholesOk(args, sink + [w], groups + [g]) && End(groups + [g]) == g.to
  {
    assert (sink + [w])[..|sink|] == sink && (groups + [g])[..|sink|] == groups;
  }

  /** All that was written is the messages up to the end of the last group. */
  lemma {:induction false} WholesText(args: seq<Bytes>, sink: seq<Bytes>, groups: seq<Group>)
    requires WholesOk(args, sink, groups)
    ensures Some(Sequences.Concat(sink)) == Some(Text(args, 0, End(groups)))
    decreases |sink|
  {
    if sink == [] {
      assert args[0..0] == [];
    } else {
      var n := |sink| - 1;
      WholesText(args, sink[..n], groups[..n]);
      WholeText(args, sink[n], End(groups[..n]), groups[n]);
      Sequences.InitLast(sink);
      Sequences.ConcatLast(sink[..n], sink[n]);
    }
  }

  lemma WholeText(args: seq<Bytes>, w: Bytes, end: nat, g: Group)
    requires WholeWrite(args, w, end, g)
    ensures Some(Text(args, 0, g.to)) == Some(Text(args, 0, end) + w)
  {
    TextBlank(args, end, g.from);
    TextJoin(args, 0, end, g.from);
    TextJoin(args, 0, g.from, g.to);
    assert Text(args, 0, end) + [] == Text(args, 0, end);
  }

  // ---- the invariant -----------------------------------------------------------------------------

  /** The joined messages that are not written yet. */
  function Joined(c: Consumer): Bytes {
    match c
    case Await => []
    case Head(_, temp) => temp
    case Decide(_, temp, _) => temp
    case CopyNext(temp, _) => temp
    case Flush(_, temp, _) => temp
    case FlushTemp(temp, _) => temp
    case FlushNext(_) => []
    case Put(_, _, ThenCopy(temp, _)) => temp
    case Put(_, _, ThenHead(temp)) => temp
    case Put(_, _, ThenTemp(temp, _)) => temp
    case Put(_, _, ThenAwait) => []
  }

  /** Messages End(groups) to n are joined in the scratch buffer, and the ones behind them are in
      the buffers that the consumer has. */
  predicate Packed(args: seq<Bytes>, sink: seq<Bytes>, groups: seq<Group>, joined: Bytes, held: seq<Bytes>, n: nat) {
    && WholesOk(args, sink, groups) && End(groups) <= n && n + |held| <= |args|
    && Some(joined) == Some(Text(args, End(groups), n))
    && Some(held) == Some(args[n..n + |held|])
  }

  predicate Counted(s: State, args: seq<Bytes>) {
    |s.dequeued| + |s.queue| == |args| && |NotOffered(s.consumer)| <= |s.dequeued|
  }

  /** The messages in the buffers that the consumer has. */
  function HeldTexts(s: State): seq<Bytes> { Queued(s.heap, NotOffered(s.consumer)) }

  /** `args` are the accepted messages. */
  predicate Whole(s: State, groups: seq<Group>, args: seq<Bytes>) {
    && Counted(s, args)
    && Packed(args, s.sink, groups, Joined(s.consumer), HeldTexts(s), Handled(s))
  }

  lemma PackedMore(args: seq<Bytes>, more: seq<Bytes>, sink: seq<Bytes>, groups: seq<Group>, joined: Bytes,
                   held: seq<Bytes>, n: nat)
    requires Packed(args, sink, groups, joined, held, n)
    ensures Packed(args + more, sink, groups, joined, held, n)
  {
    WholesMore(args, more, sink, groups);
    TextMore(args, more, End(groups), n);
    assert (args + more)[n..n + |held|] == args[n..n + |held|];
  }

  // ---- steps of a call ---------------------------------------------------------------------------

  /** No call changes a buffer that the consumer has. */
  lemma CallKeepsHeld(s: State, c: nat)
    requires Owned(OwnersOf(s), |s.heap|) && c < |s.calls|
    ensures Some(Queued(CallTurn(s, c).heap, NotOffered(s.consumer))) == Some(HeldTexts(s))
  {
    var (held, some) := (HeldByConsumer(s.consumer), NotOffered(s.consumer));
    forall k | 0 <= k < |some|
      ensures Lookup(CallTurn(s, c).heap, some[k]) == Lookup(s.heap, some[k])
    {
      var i := if s.consumer.Put? then k + 1 else k;
      assert held[i] == some[k];
      assert At(OwnersOf(s), some[k], WithConsumer(i));
      HeldElsewhere(s, c, some[k], i);
    }
    assert Queued(CallTurn(s, c).heap, some) == Queued(s.heap, some);
  }

  lemma HeldElsewhere(s: State, c: nat, b: Pointer, i: nat)
    requires Owned(OwnersOf(s), |s.heap|) && c < |s.calls| && At(OwnersOf(s), b, WithConsumer(i))
    ensures Lookup(CallTurn(s, c).heap, b) == Lookup(s.heap, b)
  {
    if s.calls[c].pc.Taken? {
      assert s.calls[c].pc.buf == b ==> At(OwnersOf(s), b, WithCall(c));
    }
  }

  /** A step that leaves the consumer alone. */
  lemma WholeKept(s: State, s': State, groups: seq<Group>, args: seq<Bytes>, more: seq<Bytes>)
    requires Whole(s, groups, args) && s'.consumer == s.consumer && s'.sink == s.sink && s'.dequeued == s.dequeued
    requires |s'.queue| == |s.queue| + |more|
    requires Some(HeldTexts(s')) == Some(HeldTexts(s))
    ensures Whole(s', groups, args + more)
  {
    PackedMore(args, more, s.sink, groups, Joined(s.consumer), HeldTexts(s), Handled(s));
  }

  lemma CallFrame(s: State, c: nat)
    requires c < |s.calls|
    ensures var s' := CallTurn(s, c);
            && s'.consumer == s.consumer && s'.sink == s.sink && s'.dequeued == s.dequeued
            && |s'.calls| == |s.calls| && (forall d | 0 <= d < |s.calls| :: s'.calls[d].arg == s.calls[d].arg)
            && if s'.sent == s.sent then s'.queue == s.queue
               else s'.sent == s.sent + [c] && |s'.queue| == |s.queue| + 1
  {
  }

  /** The accepted messages, where every number of a call is one. */
  function Accepted(s: State): seq<Bytes> {
    if forall k | 0 <= k < |s.sent| :: s.sent[k] < |s.calls| then Args(s.calls, s.sent) else []
  }

  lemma AcceptedSame(s: State, s': State)
    requires forall k | 0 <= k < |s.sent| :: s.sent[k] < |s.calls| <= |s'.calls|
    requires s'.sent == s.sent && forall c | 0 <= c < |s.calls| <= |s'.calls| :: s'.calls[c].arg == s.calls[c].arg
    requires |s.calls| <= |s'.calls|
    ensures Some(Accepted(s')) == Some(Accepted(s) + [])
  {
    ArgsKept(s.calls, s'.calls, s.sent);
    assert Accepted(s) + [] == Accepted(s);
  }

  lemma AcceptedMore(s: State, s': State, c: nat)
    requires (forall k | 0 <= k < |s.sent| :: s.sent[k] < |s.calls|) && c < |s.calls| == |s'.calls|
    requires s'.sent == s.sent + [c] && forall d | 0 <= d < |s.calls| :: s'.calls[d].arg == s.calls[d].arg
    ensures Some(Accepted(s')) == Some(Accepted(s) + [s.calls[c].arg])
  {
    assert Accepted(s') == Accepted(s) + [s.calls[c].arg];
  }

  lemma WholeCallTurn(s: State, groups: seq<Group>, c: nat)
    requires Inv(s) && Whole(s, groups, Accepted(s)) && c < |s.calls|
    ensures Whole(CallTurn(s, c), groups, Accepted(CallTurn(s, c)))
  {
    var s' := CallTurn(s, c);
    CallFrame(s, c);
    CallKeepsHeld(s, c);
    if s'.sent == s.sent {
      AcceptedSame(s, s');
      WholeKept(s, s', groups, Accepted(s), []);
    } else {
      AcceptedMore(s, s', c);
      WholeKept(s, s', groups, Accepted(s), [s.calls[c].arg]);
    }
  }

  // ---- steps of the consumer -----------------------------------------------------------------------

  /** The group of a message written alone, and of the joined messages. */
  lemma AloneOk(args: seq<Bytes>, end: nat, n: nat)
    requires end <= n < |args| && Text(args, end, n) == []
    ensures WholeWrite(args, args[n], end, Group(n, n + 1))
  {
    TextBlank(args, end, n);
    TextOne(args, n);
  }

  lemma JoinedOk(args: seq<Bytes>, temp: Bytes, end: nat, n: nat)
    requires end <= n <= |args| && 0 < |temp| <= LOG_TEMP_BUFFER_SIZE && Some(temp) == Some(Text(args, end, n))
    ensures WholeWrite(args, temp, end, Group(end, n))
  {
    assert args[n..n] == [];
  }

  /** A message is dequeued. */
  lemma PackedReceive(args: seq<Bytes>, sink: seq<Bytes>, groups: seq<Group>, joined: Bytes, held: seq<Bytes>, n: nat,
                      w: Bytes)
    requires Packed(args, sink, groups, joined, held, n) && n + |held| < |args| && Some(w) == Some(args[n + |held|])
    ensures Packed(args, sink, groups, joined, held + [w], n)
  {
    assert args[n..n + |held| + 1] == args[n..n + |held|] + [args[n + |held|]];
  }

  lemma FirstHeld(args: seq<Bytes>, held: seq<Bytes>, n: nat)
    requires held != [] && n + |held| <= |args| && Some(held) == Some(args[n..n + |held|])
    ensures held[0] == args[n] && Some(held[1..]) == Some(args[n + 1..n + |held|])
  {
    assert args[n..n + |held|][1..] == args[n + 1..n + |held|];
  }

  /** The first message that the consumer has joins the others. */
  lemma PackedJoin(args: seq<Bytes>, sink: seq<Bytes>, groups: seq<Group>, joined: Bytes, held: seq<Bytes>, n: nat)
    requires Packed(args, sink, groups, joined, held, n) && held != []
    ensures Packed(args, sink, groups, joined + held[0], held[1..], n + 1)
  {
    FirstHeld(args, held, n);
    TextNext(args, End(groups), n);
  }

  /** It is written alone. */
  lemma PackedAlone(args: seq<Bytes>, sink: seq<Bytes>, groups: seq<Group>, held: seq<Bytes>, n: nat)
    requires Packed(args, sink, groups, [], held, n) && held != []
    ensures Packed(args, sink + [held[0]], groups + [Group(n, n + 1)], [], held[1..], n + 1)
  {
    FirstHeld(args, held, n);
    AloneOk(args, End(groups), n);
    WholesLast(args, sink, groups, args[n], Group(n, n + 1));
    assert args[n + 1..n + 1] == [];
  }

  /** The joined messages are written. */
  lemma PackedFlush(args: seq<Bytes>, sink: seq<Bytes>, groups: seq<Group>, joined: Bytes, held: seq<Bytes>, n: nat)
    requires Packed(args, sink, groups, joined, held, n) && joined != [] && |joined| <= LOG_TEMP_BUFFER_SIZE
    ensures Packed(args, sink + [joined], groups + [Group(End(groups), n)], [], held, n)
  {
    JoinedOk(args, joined, End(groups), n);
    WholesLast(args, sink, groups, joined, Group(End(groups), n));
    assert args[n..n] == [];
  }

  predicate Offers(s: State) {
    || (s.consumer.Decide? && ConsumerTurn(s).consumer.Put?) || s.consumer.CopyNext?
  }

  lemma ReceiveFrame(s: State)
    requires Receives(s)
    ensures var s' := ConsumerTurn(s);
            && Some(HeldTexts(s')) == Some(HeldTexts(s) + [Data(s, s.queue[0])]) && s'.sink == s.sink
            && Some(Joined(s'.consumer)) == Some(Joined(s.consumer))
            && |s'.dequeued| == |s.dequeued| + 1 && |s'.queue| == |s.queue| - 1
            && |NotOffered(s'.consumer)| == |NotOffered(s.consumer)| + 1
  {
    HeldReceived(s);
    assert HeldTexts(ConsumerTurn(s)) == HeldTexts(s) + [Data(s, s.queue[0])];
  }

  lemma WholeReceive(s: State, groups: seq<Group>, args: seq<Bytes>)
    requires Whole(s, groups, args) && Receives(s) && Some(Data(s, s.queue[0])) == Some(args[|s.dequeued|])
    ensures Whole(ConsumerTurn(s), GroupsNext(s, groups, Consume), args)
  {
    ReceiveFrame(s);
    ReceiveStep(s, ConsumerTurn(s), groups, args, Data(s, s.queue[0]));
  }

  lemma ReceiveStep(s: State, s': State, groups: seq<Group>, args: seq<Bytes>, w: Bytes)
    requires Whole(s, groups, args) && s.queue != [] && Some(w) == Some(args[|s.dequeued|])
    requires Some(HeldTexts(s')) == Some(HeldTexts(s) + [w]) && s'.sink == s.sink
    requires Some(Joined(s'.consumer)) == Some(Joined(s.consumer))
    requires |s'.dequeued| == |s.dequeued| + 1 && |s'.queue| == |s.queue| - 1
    requires |NotOffered(s'.consumer)| == |NotOffered(s.consumer)| + 1
    ensures Whole(s', groups, args)
  {
    assert Handled(s') == Handled(s);
    PackedReceive(args, s.sink, groups, Joined(s.consumer), HeldTexts(s), Handled(s), w);
  }

  /** The consumer has handed back its first buffer. */
  predicate GaveFirst(s: State, s': State) {
    && HeldTexts(s) != [] && Some(HeldTexts(s')) == Some(HeldTexts(s)[1..])
    && s'.dequeued == s.dequeued && s'.queue == s.queue
  }

  lemma OfferFrame(s: State)
    requires Offers(s)
    ensures var s' := ConsumerTurn(s);
            && GaveFirst(s, s') && s'.sink == s.sink
            && Some(Joined(s'.consumer)) == Some(Joined(s.consumer) + HeldTexts(s)[0])
  {
    assert HeldTexts(ConsumerTurn(s)) == HeldTexts(s)[1..];
  }

  lemma OfferStep(s: State, s': State, groups: seq<Group>, args: seq<Bytes>)
    requires Whole(s, groups, args) && GaveFirst(s, s') && s'.sink == s.sink
    requires Some(Joined(s'.consumer)) == Some(Joined(s.consumer) + HeldTexts(s)[0])
    ensures Whole(s', groups, args)
  {
    assert Handled(s') == Handled(s) + 1;
    PackedJoin(args, s.sink, groups, Joined(s.consumer), HeldTexts(s), Handled(s));
  }

  lemma WholeOffer(s: State, groups: seq<Group>, args: seq<Bytes>)
    requires Whole(s, groups, args) && Offers(s)
    ensures Whole(ConsumerTurn(s), GroupsNext(s, groups, Consume), args)
  {
    OfferFrame(s);
    OfferStep(s, ConsumerTurn(s), groups, args);
  }

  predicate WritesAlone(c: Consumer) { (c.Flush? && c.first.Some?) || (c.FlushNext? && c.last.Some?) }

  lemma AloneFrame(s: State)
    requires WritesAlone(s.consumer) && Joined(s.consumer) == []
    ensures var s' := ConsumerTurn(s);
            && GaveFirst(s, s') && Some(s'.sink) == Some(s.sink + [HeldTexts(s)[0]])
            && Some(Joined(s'.consumer)) == Some([])
  {
    assert HeldTexts(ConsumerTurn(s)) == HeldTexts(s)[1..];
  }

  lemma AloneStep(s: State, s': State, groups: seq<Group>, args: seq<Bytes>)
    requires Whole(s, groups, args) && Joined(s.consumer) == [] && GaveFirst(s, s')
    requires Some(s'.sink) == Some(s.sink + [HeldTexts(s)[0]]) && Some(Joined(s'.consumer)) == Some([])
    ensures Whole(s', groups + [Group(Handled(s), Handled(s) + 1)], args)
  {
    assert Handled(s') == Handled(s) + 1;
    PackedAlone(args, s.sink, groups, HeldTexts(s), Handled(s));
  }

  lemma WholeAlone(s: State, groups: seq<Group>, args: seq<Bytes>)
    requires Whole(s, groups, args) && WritesAlone(s.consumer) && Joined(s.consumer) == []
    ensures Whole(ConsumerTurn(s), GroupsNext(s, groups, Consume), args)
  {
    AloneFrame(s);
    AloneStep(s, ConsumerTurn(s), groups, args);
  }

  /** A step that leaves the held buffers and the channel as they are. */
  predicate HoldsOn(s: State, s': State) {
    Some(HeldTexts(s')) == Some(HeldTexts(s)) && s'.dequeued == s.dequeued && s'.queue == s.queue
  }

  lemma FlushFrame(s: State)
    requires s.consumer.FlushTemp?
    ensures var s' := ConsumerTurn(s);
            && HoldsOn(s, s') && Some(Joined(s'.consumer)) == Some([])
            && s'.sink == (if s.consumer.temp == [] then s.sink else s.sink + [s.consumer.temp])
  {
  }

  lemma FlushStep(s: State, s': State, groups: seq<Group>, args: seq<Bytes>)
    requires Whole(s, groups, args) && 0 < |Joined(s.consumer)| <= LOG_TEMP_BUFFER_SIZE
    requires HoldsOn(s, s') && Some(Joined(s'.consumer)) == Some([]) && s'.sink == s.sink + [Joined(s.consumer)]
    ensures Whole(s', groups + [Group(End(groups), Handled(s))], args)
  {
    PackedFlush(args, s.sink, groups, Joined(s.consumer), HeldTexts(s), Handled(s));
  }

  lemma SilentStep(s: State, s': State, groups: seq<Group>, args: seq<Bytes>)
    requires Whole(s, groups, args) && s'.sink == s.sink
    requires HoldsOn(s, s') && Some(Joined(s'.consumer)) == Some(Joined(s.consumer))
    ensures Whole(s', groups, args)
  {
  }

  lemma WholeFlush(s: State, groups: seq<Group>, args: seq<Bytes>)
    requires Whole(s, groups, args) && s.consumer.FlushTemp? && |s.consumer.temp| <= LOG_TEMP_BUFFER_SIZE
    ensures Whole(ConsumerTurn(s), GroupsNext(s, groups, Consume), args)
  {
    FlushFrame(s);
    if s.consumer.temp == [] {
      SilentStep(s, ConsumerTurn(s), groups, args);
    } else {
      FlushStep(s, ConsumerTurn(s), groups, args);
    }
  }

  predicate Other(s: State) {
    !Receives(s) && !Offers(s) && !s.consumer.FlushTemp? && !WritesAlone(s.consumer)
  }

  /** What a step of the consumer does not touch unless it receives. */
  lemma OtherFrame(s: State)
    requires !Receives(s)
    ensures ConsumerTurn(s).dequeued == s.dequeued && ConsumerTurn(s).queue == s.queue
    ensures ConsumerTurn(s).heap == s.heap
  {
  }

  lemma SilentFrame(s: State)
    requires Other(s)
    ensures var (c, c') := (s.consumer, ConsumerTurn(s).consumer);
            && Some(NotOffered(c')) == Some(NotOffered(c)) && Some(Joined(c')) == Some(Joined(c))
            && ConsumerTurn(s).sink == s.sink
  {
    match s.consumer {
      case Head(first, temp) => assert AsList(first) + [] == AsList(first);
      case Decide(first, temp, next) =>
        assert AsList(first) + [next] == AsList(first) + AsList(Some(next)) && [] + [next] == [next];
      case Flush(first, temp, last) => assert [] + AsList(last) == AsList(last);
      case _ =>
    }
  }

  lemma WholeOther(s: State, groups: seq<Group>, args: seq<Bytes>)
    requires Whole(s, groups, args) && Other(s)
    ensures Whole(ConsumerTurn(s), GroupsNext(s, groups, Consume), args)
  {
    OtherFrame(s);
    SilentFrame(s);
    SilentStep(s, ConsumerTurn(s), groups, args);
  }

  lemma WholeConsumerTurn(s: State, groups: seq<Group>, args: seq<Bytes>)
    requires Whole(s, groups, args) && ConsumerOk(s.heap, s.consumer)
    requires Receives(s) ==> Some(Data(s, s.queue[0])) == Some(args[|s.dequeued|])
    ensures Whole(ConsumerTurn(s), GroupsNext(s, groups, Consume), args)
  {
    if Receives(s) { WholeReceive(s, groups, args); }
    else if Offers(s) { WholeOffer(s, groups, args); }
    else if s.consumer.FlushTemp? { WholeFlush(s, groups, args); }
    else if WritesAlone(s.consumer) { WholeAlone(s, groups, args); }
    else { WholeOther(s, groups, args); }
  }

  // ---- every run ---------------------------------------------------------------------------------

  /** The oldest queued buffer holds the next accepted message. */
  lemma NextDequeued(s: State)
    requires Delivery(s) && Counted(s, Accepted(s)) && s.queue != []
    ensures Some(Data(s, s.queue[0])) == Some(Accepted(s)[|s.dequeued|])
  {
    var n := |s.sent| - |s.queue|;
    assert Data(s, s.queue[0]) == Queued(s.heap, s.queue)[0] == Accepted(s)[n..][0];
  }

  lemma ConsumerAccepts(s: State)
    ensures Accepted(ConsumerTurn(s)) == Accepted(s)
  {
    assert ConsumerTurn(s).calls == s.calls && ConsumerTurn(s).sent == s.sent;
  }

  lemma WholeConsume(s: State, groups: seq<Group>)
    requires Delivery(s) && ConsumerOk(s.heap, s.consumer) && Whole(s, groups, Accepted(s))
    ensures Whole(ConsumerTurn(s), GroupsNext(s, groups, Consume), Accepted(ConsumerTurn(s)))
  {
    if s.queue != [] { NextDequeued(s); }
    ConsumerAccepts(s);
    WholeConsumerTurn(s, groups, Accepted(s));
  }

  lemma WholeTurn(s: State, groups: seq<Group>, c: nat)
    requires Inv(s) && Whole(s, groups, Accepted(s)) && c < |s.calls|
    ensures Whole(Next(s, Turn(c)), GroupsNext(s, groups, Turn(c)), Accepted(Next(s, Turn(c))))
  {
    CallFrame(s, c);
    WholeCallTurn(s, groups, c);
  }

  predicate IsStill(a: Action) { a.Begin? || a.TimeOut? }

  lemma StillFrame(s: State, a: Action)
    requires IsStill(a)
    ensures var s' := Next(s, a);
            && s'.heap == s.heap && s'.queue == s.queue && s'.consumer == s.consumer && s'.sink == s.sink
            && s'.sent == s.sent && s'.dequeued == s.dequeued
            && |s.calls| <= |s'.calls| && forall c | 0 <= c < |s.calls| :: s'.calls[c].arg == s.calls[c].arg
  {
  }

  lemma WholeStill(s: State, groups: seq<Group>, a: Action)
    requires Delivery(s) && Whole(s, groups, Accepted(s)) && IsStill(a)
    ensures Whole(Next(s, a), GroupsNext(s, groups, a), Accepted(Next(s, a)))
  {
    StillFrame(s, a);
    assert forall k | 0 <= k < |s.sent| :: s.sent[k] < |s.calls|;
    AcceptedSame(s, Next(s, a));
    StillKept(s, Next(s, a), groups, Accepted(s), Accepted(Next(s, a)));
  }

  lemma StillKept(s: State, s': State, groups: seq<Group>, args: seq<Bytes>, args': seq<Bytes>)
    requires Whole(s, groups, args) && Some(args') == Some(args + [])
    requires s'.heap == s.heap && s'.queue == s.queue && s'.consumer == s.consumer && s'.sink == s.sink
    requires s'.dequeued == s.dequeued
    ensures Whole(s', groups, args')
  {
    WholeKept(s, s', groups, args, []);
  }

  lemma WholeNext(s: State, groups: seq<Group>, a: Action)
    requires Inv(s) && Whole(s, groups, Accepted(s))
    ensures Whole(Next(s, a), GroupsNext(s, groups, a), Accepted(Next(s, a)))
  {
    match a {
      case Turn(c) => if c < |s.calls| { WholeTurn(s, groups, c); }
      case Consume => WholeConsume(s, groups);
      case _ => WholeStill(s, groups, a);
    }
  }

  lemma {:induction false} WholeRun(s: State, groups: seq<Group>, actions: seq<Action>)
    requires Inv(s) && Whole(s, groups, Accepted(s))
    ensures var s' := Run(s, actions); Whole(s', GroupsRun(s, groups, actions), Accepted(s'))
    decreases |actions|
  {
    if actions != [] {
      InvNext(s, actions[0]);
      WholeNext(s, groups, actions[0]);
      WholeRun(Next(s, actions[0]), GroupsNext(s, groups, actions[0]), actions[1..]);
    }
  }

  lemma WholeInit()
    ensures Whole(Init(), [], Accepted(Init()))
  {
    var s := Init();
    assert Accepted(s) == [] && HeldTexts(s) == [];
  }

  lemma Reached(actions: seq<Action>)
    ensures var s := Run(Init(), actions);
            && (forall k | 0 <= k < |s.sent| :: s.sent[k] < |s.calls|)
            && Whole(s, GroupsRun(Init(), [], actions), Accepted(s))
  {
    var s := Run(Init(), actions);
    assert Delivery(s) by { Reachable(actions); }
    assert Whole(s, GroupsRun(Init(), [], actions), Accepted(s)) by {
      InvInit();
      WholeInit();
      WholeRun(Init(), [], actions);
    }
  }

  lemma WholeSink(s: State, groups: seq<Group>, args: seq<Bytes>)
    requires Whole(s, groups, args)
    ensures WholeWrites(args, s.sink, groups)
  {
    forall k | 0 <= k < |s.sink| ensures WholeWrite(args, s.sink[k], End(groups[..k]), groups[k]) {
      WholeAt(args, s.sink, groups, k);
    }
  }

  /** In every reachable state the sink has received whole messages: write k is exactly the
      messages of group k, joined, the groups follow one another in the order of acceptance, the
      messages they skip are empty, and a write longer than the scratch buffer is one message. */
  lemma WholeMessages(actions: seq<Action>)
    ensures var s := Run(Init(), actions);
            && (forall k | 0 <= k < |s.sent| :: s.sent[k] < |s.calls|)
            && WholeWrites(Args(s.calls, s.sent), s.sink, GroupsRun(Init(), [], actions))
  {
    var (s, groups) := (Run(Init(), actions), GroupsRun(Init(), [], actions));
    assert forall k | 0 <= k < |s.sent| :: s.sent[k] < |s.calls| by { Reached(actions); }
    assert WholeWrites(Accepted(s), s.sink, groups) by {
      Reached(actions);
      WholeSink(s, groups, Accepted(s));
    }
  }

  /** The buffers handed back so far are those of the first messages, and these are exactly what
      is in the sink and in the scratch buffer: no buffer is handed back before its bytes were
      written or copied. */
  lemma HandedBackExact(actions: seq<Action>)
    ensures var s := Run(Init(), actions);
            && (forall k | 0 <= k < |s.sent| :: s.sent[k] < |s.calls|)
            && |s.offered| <= |s.dequeued| <= |s.sent| && s.dequeued[..|s.offered|] == s.offered
            && Some(Sequences.Concat(s.sink) + Joined(s.consumer))
               == Some(Sequences.Concat(Args(s.calls, s.sent)[..|s.offered|]))
  {
    var (s, groups) := (Run(Init(), actions), GroupsRun(Init(), [], actions));
    Reached(actions);
    OfferedOnce(actions);
    HandedBackText(s, groups, Accepted(s));
  }

  lemma HandedBackText(s: State, groups: seq<Group>, args: seq<Bytes>)
    requires Whole(s, groups, args) && Some(s.dequeued) == Some(s.offered + NotOffered(s.consumer))
    ensures |s.offered| <= |s.dequeued| <= |args| && s.dequeued[..|s.offered|] == s.offered
    ensures Some(Sequences.Concat(s.sink) + Joined(s.consumer)) == Some(Sequences.Concat(args[..|s.offered|]))
  {
    assert Handled(s) == |s.offered|;
    WholesText(args, s.sink, groups);
    TextJoin(args, 0, End(groups), |s.offered|);
    assert args[0..|s.offered|] == args[..|s.offered|];
  }

  lemma PackedRest(args: seq<Bytes>, sink: seq<Bytes>, groups: seq<Group>, held: seq<Bytes>)
    requires Packed(args, sink, groups, [], held, |args|)
    ensures Blank(args, End(groups), |args|)
  {
    TextBlank(args, End(groups), |args|);
  }

  lemma RestBlank(s: State, groups: seq<Group>, args: seq<Bytes>)
    requires Whole(s, groups, args) && s.consumer == Await && s.queue == []
    ensures Blank(args, End(groups), |args|)
  {
    assert Handled(s) == |args|;
    PackedRest(args, s.sink, groups, HeldTexts(s));
  }

  /** When the consumer waits on an empty channel, no message is outside all groups but empty ones. */
  lemma NothingLeft(actions: seq<Action>)
    requires Run(Init(), actions).consumer == Await && Run(Init(), actions).queue == []
    ensures var args := Accepted(Run(Init(), actions));
            Blank(args, End(GroupsRun(Init(), [], actions)), |args|)
  {
    Reached(actions);
    RestBlank(Run(Init(), actions), GroupsRun(Init(), [], actions), Accepted(Run(Init(), actions)));
  }
}
