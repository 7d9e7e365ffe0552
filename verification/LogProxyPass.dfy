/** What one pass of the consumer does, in every run: from a receive that blocks to the next, it
    makes exactly the writes of the functional loop for the messages that its receives saw. */
module LogProxyPass {
  import opened Utf8
  import opened LogBatch
  import opened LogProxy
  import opened LogProxySafety
  import opened LogProxyWrites
  import Sequences

  /** Observed beside a run: what each receive of the latest pass saw, and how many messages had
      been dequeued and how many writes made when it began. */
  datatype Pass = Pass(seen: seq<Option<Bytes>>, start: nat, mark: nat)

  const NO_PASS := Pass([], 0, 0)

  function Read(heap: seq<Buf>, b: Option<Pointer>): Option<Bytes> {
    if b.None? then None else Some(Lookup(heap, b.value).data)
  }

  /** What a receive that does not block finds. */
  function Reply(s: State): Option<Bytes> { if s.queue == [] then None else Some(Data(s, s.queue[0])) }

  /** A receive in Await blocks while the channel is empty; one in Head does not. */
  function PassNext(s: State, p: Pass, a: Action): Pass {
    if a == Consume && s.consumer.Head? then p.(seen := p.seen + [Reply(s)])
    else if a == Consume && Receives(s) then Pass([Reply(s)], |s.dequeued|, |s.sink|)
    else p
  }

  function PassRun(s: State, p: Pass, actions: seq<Action>): Pass
    decreases |actions|
  {
    if actions == [] then p else PassRun(Next(s, actions[0]), PassNext(s, p, actions[0]), actions[1..])
  }

  // ---- what the receives saw -----------------------------------------------------------------------

  function Replies(seen: seq<Option<Bytes>>): Arrivals { (k: nat) => if k < |seen| then seen[k] else None }

  lemma {:induction false} RepliesMore(seen: seq<Option<Bytes>>, r: Option<Bytes>, n: nat)
    requires n < |seen|
    ensures AfterTurns(Replies(seen + [r]), n) == AfterTurns(Replies(seen), n)
  {
    if n > 0 { RepliesMore(seen, r, n - 1); }
  }

  /** The functional loop over what was seen so far. */
  function LoopNow(seen: seq<Option<Bytes>>): Loop
    requires seen != []
  {
    AfterTurns(Replies(seen), |seen| - 1)
  }

  lemma LoopMore(seen: seq<Option<Bytes>>, r: Option<Bytes>)
    requires seen != [] && LoopNow(seen).running
    ensures LoopNow(seen + [r]) == LoopTurn(LoopNow(seen), r)
  {
    RepliesMore(seen, r, |seen| - 1);
  }

  /** The first receive found a message, and the loop ran at least up to the last. */
  predicate Followed(seen: seq<Option<Bytes>>) {
    seen != [] && seen[0].Some? && (|seen| > 1 ==> AfterTurns(Replies(seen), |seen| - 2).running)
  }

  lemma FollowedMore(seen: seq<Option<Bytes>>, r: Option<Bytes>)
    requires Followed(seen) && LoopNow(seen).running
    ensures Followed(seen + [r])
  {
    RepliesMore(seen, r, |seen| - 1);
  }

  // ---- what the consumer stands for ------------------------------------------------------------------

  /** The consumer is in the loop. */
  predicate Batching(c: Consumer) {
    c.Head? || c.Decide? || c.CopyNext? || (c.Put? && (c.rest.ThenCopy? || c.rest.ThenHead?))
  }

  /** The state of the functional loop when the turn at hand is over. */
  function LoopOf(heap: seq<Buf>, c: Consumer): Loop
    requires Batching(c)
  {
    match c
    case Head(first, temp) => Loop(Read(heap, first), temp, None, true)
    case Decide(first, temp, next) => LoopTurn(Loop(Read(heap, first), temp, None, true), Read(heap, Some(next)))
    case CopyNext(temp, next) => Loop(None, temp + Lookup(heap, next).data, None, true)
    case Put(_, _, ThenCopy(temp, next)) => Loop(None, temp + Lookup(heap, next).data, None, true)
    case Put(_, _, ThenHead(temp)) => Loop(None, temp, None, true)
  }

  /** Behind the loop: the writes still to come. */
  function ToWrite(heap: seq<Buf>, c: Consumer): seq<Bytes>
    requires !Batching(c)
  {
    match c
    case Flush(first, temp, last) => Flushed(Loop(Read(heap, first), temp, Read(heap, last), false))
    case FlushTemp(temp, last) => Flushed(Loop(None, temp, Read(heap, last), false))
    case Put(_, _, ThenTemp(temp, last)) => Flushed(Loop(None, temp, Read(heap, last), false))
    case FlushNext(last) => AsList(Read(heap, last))
    case Put(_, _, ThenAwait) => []
    case Await => []
  }

  /** In the loop, the consumer follows the functional loop and has written nothing; behind it,
      what was written and what is still to come are the writes of the functional loop. */
  predicate PassOk(heap: seq<Buf>, c: Consumer, sink: seq<Bytes>, p: Pass) {
    && p.mark <= |sink|
    && if Batching(c) then Followed(p.seen) && LoopOf(heap, c) == LoopNow(p.seen) && |sink| == p.mark
       else if p.seen == [] then c == Await && sink == []
       else
         && Followed(p.seen) && !LoopNow(p.seen).running
         && Some(sink[p.mark..] + ToWrite(heap, c)) == Some(Flushed(LoopNow(p.seen)))
  }

  // ---- steps ---------------------------------------------------------------------------------------------

  /** Steps in the loop that receive nothing. */
  lemma BatchStep(s: State)
    requires Batching(s.consumer) && !s.consumer.Head?
    ensures var (s', l) := (ConsumerTurn(s), LoopOf(s.heap, s.consumer));
            && s'.heap == s.heap && s'.sink == s.sink
            && if Batching(s'.consumer) then LoopOf(s.heap, s'.consumer) == l
               else !l.running && ToWrite(s.heap, s'.consumer) == Flushed(l)
  {
  }

  /** Steps behind the loop. */
  lemma WriteStep(s: State)
    requires !Batching(s.consumer) && !Receives(s)
    ensures var s' := ConsumerTurn(s);
            && s'.heap == s.heap && !Batching(s'.consumer) && s.sink <= s'.sink
            && Some(s'.sink[|s.sink|..] + ToWrite(s.heap, s'.consumer)) == Some(ToWrite(s.heap, s.consumer))
  {
    var (c, delta) := (s.consumer, ConsumerTurn(s).sink[|s.sink|..]);
    if c.Flush? && c.first.Some? {
      FlushedFirst(Data(s, c.first.value), c.temp, Read(s.heap, c.last));
      assert delta == [Data(s, c.first.value)];
    } else if c.FlushTemp? {
      FlushedTemp(c.temp, Read(s.heap, c.last));
      assert delta == if |c.temp| > 0 then [c.temp] else [];
    } else if c.FlushNext? && c.last.Some? {
      assert delta + [] == [Data(s, c.last.value)];
    } else {
      assert delta == [] && [] + ToWrite(s.heap, c) == ToWrite(s.heap, c);
    }
  }

  lemma FlushedFirst(first: Bytes, temp: Bytes, last: Option<Bytes>)
    ensures Some(Flushed(Loop(Some(first), temp, last, false)))
         == Some([first] + Flushed(Loop(None, temp, last, false)))
  {
    assert Flushed(Loop(Some(first), temp, last, false)) == [first] + Flushed(Loop(None, temp, last, false));
  }

  lemma FlushedTemp(temp: Bytes, last: Option<Bytes>)
    ensures Some(Flushed(Loop(None, temp, last, false))) == Some((if |temp| > 0 then [temp] else []) + AsList(last))
  {
    var joined := if |temp| > 0 then [temp] else [];
    assert Flushed(Loop(None, temp, last, false)) == joined + AsList(last);
  }

  lemma WrittenMore(sink: seq<Bytes>, sink': seq<Bytes>, mark: nat, todo: seq<Bytes>, todo': seq<Bytes>)
    requires mark <= |sink| && sink <= sink' && Some(sink'[|sink|..] + todo') == Some(todo)
    ensures Some(sink'[mark..] + todo') == Some(sink[mark..] + todo)
  {
    assert sink'[mark..] == sink[mark..] + sink'[|sink|..];
    Sequences.Assoc(sink[mark..], sink'[|sink|..], todo');
  }

  lemma PassAwait(s: State, p: Pass)
    requires s.consumer == Await && s.queue != []
    ensures var s' := ConsumerTurn(s); PassOk(s'.heap, s'.consumer, s'.sink, PassNext(s, p, Consume))
  {
  }

  lemma PassHead(s: State, p: Pass)
    requires PassOk(s.heap, s.consumer, s.sink, p) && s.consumer.Head?
    ensures var s' := ConsumerTurn(s); PassOk(s'.heap, s'.consumer, s'.sink, PassNext(s, p, Consume))
  {
    LoopMore(p.seen, Reply(s));
    FollowedMore(p.seen, Reply(s));
    assert s.sink[p.mark..] == [];
    assert forall x: seq<Bytes> :: [] + x == x;
  }

  lemma PassConsume(s: State, p: Pass)
    requires PassOk(s.heap, s.consumer, s.sink, p)
    ensures var s' := ConsumerTurn(s); PassOk(s'.heap, s'.consumer, s'.sink, PassNext(s, p, Consume))
  {
    if s.consumer.Head? {
      PassHead(s, p);
    } else if Batching(s.consumer) {
      BatchStep(s);
      assert s.sink[p.mark..] == [];
      assert forall x: seq<Bytes> :: [] + x == x;
    } else if Receives(s) {
      PassAwait(s, p);
    } else {
      WriteStep(s);
      var s' := ConsumerTurn(s);
      WrittenMore(s.sink, s'.sink, p.mark, ToWrite(s.heap, s.consumer), ToWrite(s.heap, s'.consumer));
    }
  }

  /** No other step changes what the consumer stands for. */
  lemma HeapKept(heap: seq<Buf>, heap': seq<Buf>, c: Consumer)
    requires Some(Queued(heap', NotOffered(c))) == Some(Queued(heap, NotOffered(c)))
    ensures Batching(c) ==> LoopOf(heap', c) == LoopOf(heap, c)
    ensures !Batching(c) ==> ToWrite(heap', c) == ToWrite(heap, c)
  {
    var b := NotOffered(c);
    forall k | 0 <= k < |b| ensures Lookup(heap', b[k]).data == Lookup(heap, b[k]).data {
      assert Queued(heap', b)[k] == Queued(heap, b)[k];
    }
    KeptRead(heap, heap', c);
  }

  lemma KeptRead(heap: seq<Buf>, heap': seq<Buf>, c: Consumer)
    requires forall k | 0 <= k < |NotOffered(c)| ::
               Lookup(heap', NotOffered(c)[k]).data == Lookup(heap, NotOffered(c)[k]).data
    ensures Batching(c) ==> LoopOf(heap', c) == LoopOf(heap, c)
    ensures !Batching(c) ==> ToWrite(heap', c) == ToWrite(heap, c)
  {
    var b := NotOffered(c);
    match c {
      case Decide(first, _, next) => assert b[|b| - 1] == next && (first.Some? ==> b[0] == first.value);
      case Flush(first, _, last) =>
        assert (last.Some? ==> b[|b| - 1] == last.value) && (first.Some? ==> b[0] == first.value);
      case Head(first, _) => assert first.Some? ==> b[0] == first.value;
      case FlushTemp(_, last) => assert last.Some? ==> b[0] == last.value;
      case FlushNext(last) => assert last.Some? ==> b[0] == last.value;
      case Put(_, _, ThenTemp(_, last)) => assert last.Some? ==> b[0] == last.value;
      case CopyNext(_, next) => assert b[0] == next;
      case Put(_, _, ThenCopy(_, next)) => assert b[0] == next;
      case _ =>
    }
  }

  lemma PassTurn(s: State, p: Pass, c: nat)
    requires Inv(s) && c < |s.calls| && PassOk(s.heap, s.consumer, s.sink, p)
    ensures var s' := CallTurn(s, c); PassOk(s'.heap, s'.consumer, s'.sink, p)
  {
    CallFrame(s, c);
    CallKeepsHeld(s, c);
    HeapKept(s.heap, CallTurn(s, c).heap, s.consumer);
  }

  lemma PassStep(s: State, p: Pass, a: Action)
    requires Inv(s) && PassOk(s.heap, s.consumer, s.sink, p)
    ensures var s' := Next(s, a); PassOk(s'.heap, s'.consumer, s'.sink, PassNext(s, p, a))
  {
    match a {
      case Turn(c) => if c < |s.calls| { PassTurn(s, p, c); }
      case Consume => PassConsume(s, p);
      case _ => StillFrame(s, a);
    }
  }

  // ---- the messages seen are the accepted ones ---------------------------------------------------------

  /** The messages found. */
  function Found(seen: seq<Option<Bytes>>): seq<Bytes> {
    if seen == [] then [] else Found(seen[..|seen| - 1]) + AsList(seen[|seen| - 1])
  }

  /** They are the last that were dequeued. */
  predicate FoundOk(args: seq<Bytes>, n: nat, p: Pass) {
    p.start <= n <= |args| && (p.seen != [] ==> Some(Found(p.seen)) == Some(args[p.start..n]))
  }

  lemma FoundMore(args: seq<Bytes>, n: nat, p: Pass, w: Bytes)
    requires FoundOk(args, n, p) && p.seen != [] && n < |args| && Some(w) == Some(args[n])
    ensures FoundOk(args, n + 1, p.(seen := p.seen + [Some(w)]))
  {
    assert (p.seen + [Some(w)])[..|p.seen|] == p.seen;
    assert args[p.start..n + 1] == args[p.start..n] + [args[n]];
  }

  lemma FoundNone(args: seq<Bytes>, n: nat, p: Pass)
    requires FoundOk(args, n, p) && p.seen != []
    ensures FoundOk(args, n, p.(seen := p.seen + [None]))
  {
    assert (p.seen + [None])[..|p.seen|] == p.seen;
    assert Found(p.seen) + [] == Found(p.seen);
  }

  lemma FoundFirst(args: seq<Bytes>, n: nat, w: Bytes, mark: nat)
    requires n < |args| && Some(w) == Some(args[n])
    ensures FoundOk(args, n + 1, Pass([Some(w)], n, mark))
  {
    assert [Some(w)][..0] == [] && args[n..n + 1] == [] + [args[n]];
  }

  lemma FoundKept(args: seq<Bytes>, args': seq<Bytes>, n: nat, p: Pass)
    requires FoundOk(args, n, p) && args <= args'
    ensures FoundOk(args', n, p)
  {
    assert args'[p.start..n] == args[p.start..n];
  }

  lemma FoundConsume(s: State, p: Pass)
    requires Delivery(s) && Counted(s, Accepted(s)) && FoundOk(Accepted(s), |s.dequeued|, p)
    requires s.consumer.Head? ==> p.seen != []
    ensures FoundOk(Accepted(s), |ConsumerTurn(s).dequeued|, PassNext(s, p, Consume))
  {
    var (args, n) := (Accepted(s), |s.dequeued|);
    if Receives(s) {
      NextDequeued(s);
      if s.consumer.Head? { FoundMore(args, n, p, Data(s, s.queue[0])); }
      else { FoundFirst(args, n, Data(s, s.queue[0]), |s.sink|); }
    } else {
      OtherFrame(s);
      if s.consumer.Head? { FoundNone(args, n, p); }
    }
  }

  /** Accepted messages stay. */
  lemma AcceptedGrows(s: State, a: Action)
    requires Delivery(s)
    ensures Accepted(s) <= Accepted(Next(s, a))
    ensures a == Consume || Next(s, a).dequeued == s.dequeued
  {
    match a {
      case Turn(c) =>
        if c < |s.calls| {
          CallFrame(s, c);
          var s' := CallTurn(s, c);
          if s'.sent == s.sent { AcceptedSame(s, s'); } else { AcceptedMore(s, s', c); }
        }
      case Consume => ConsumerAccepts(s);
      case _ =>
        StillFrame(s, a);
        AcceptedSame(s, Next(s, a));
    }
  }

  lemma FoundStep(s: State, p: Pass, a: Action)
    requires Delivery(s) && Counted(s, Accepted(s)) && FoundOk(Accepted(s), |s.dequeued|, p)
    requires s.consumer.Head? ==> p.seen != []
    ensures FoundOk(Accepted(Next(s, a)), |Next(s, a).dequeued|, PassNext(s, p, a))
  {
    if a == Consume {
      FoundConsume(s, p);
      ConsumerAccepts(s);
    } else {
      AcceptedGrows(s, a);
      FoundKept(Accepted(s), Accepted(Next(s, a)), |s.dequeued|, p);
    }
  }

  // ---- every run -----------------------------------------------------------------------------------------

  predicate Observed(s: State, p: Pass) {
    PassOk(s.heap, s.consumer, s.sink, p) && FoundOk(Accepted(s), |s.dequeued|, p)
  }

  lemma {:induction false} ObservedRun(s: State, groups: seq<Group>, p: Pass, actions: seq<Action>)
    requires Inv(s) && Whole(s, groups, Accepted(s)) && Observed(s, p)
    ensures Observed(Run(s, actions), PassRun(s, p, actions))
    decreases |actions|
  {
    if actions != [] {
      var a := actions[0];
      InvNext(s, a);
      WholeNext(s, groups, a);
      assert Observed(Next(s, a), PassNext(s, p, a)) by {
        PassStep(s, p, a);
        FoundStep(s, p, a);
      }
      ObservedRun(Next(s, a), GroupsNext(s, groups, a), PassNext(s, p, a), actions[1..]);
    }
  }

  lemma ObservedReached(actions: seq<Action>)
    ensures Observed(Run(Init(), actions), PassRun(Init(), NO_PASS, actions))
  {
    InvInit();
    WholeInit();
    ObservedRun(Init(), [], NO_PASS, actions);
  }

  lemma FollowedStops(seen: seq<Option<Bytes>>)
    requires Followed(seen) && !LoopNow(seen).running
    ensures StopsAt(Replies(seen), |seen| - 1)
  {
    StoppingTurn(Replies(seen), |seen| - 2);
  }

  /** A pass that is over: the messages that its receives found are the accepted ones next in
      order, its last receive is the first that ends the functional loop for them, and its sink
      writes are those of the functional loop. */
  predicate IsLoop(s: State, p: Pass) {
    && p.start <= |s.dequeued| <= |Accepted(s)| && p.mark <= |s.sink|
    && Some(Found(p.seen)) == Some(Accepted(s)[p.start..|s.dequeued|])
    && p.seen != [] && StopsAt(Replies(p.seen), |p.seen| - 1)
    && Some(s.sink[p.mark..]) == Some(Flushed(AfterTurns(Replies(p.seen), |p.seen| - 1)))
  }

  lemma ObservedLoop(s: State, p: Pass)
    requires Observed(s, p) && s.consumer == Await && p.seen != []
    ensures IsLoop(s, p)
  {
    FollowedStops(p.seen);
    assert s.sink[p.mark..] + [] == s.sink[p.mark..];
  }

  /** In every run, every pass is one. */
  lemma PassExact(actions: seq<Action>)
    ensures var (s, p) := (Run(Init(), actions), PassRun(Init(), NO_PASS, actions));
            s.consumer == Await && p.seen != [] ==> IsLoop(s, p)
  {
    var (s, p) := (Run(Init(), actions), PassRun(Init(), NO_PASS, actions));
    ObservedReached(actions);
    if s.consumer == Await && p.seen != [] { ObservedLoop(s, p); }
  }

  /** At any time a pass has made a first part of these writes: at most two. */
  lemma PassWrites(actions: seq<Action>)
    ensures var (s, p) := (Run(Init(), actions), PassRun(Init(), NO_PASS, actions));
            p.mark <= |s.sink| <= p.mark + 2
  {
    var (s, p) := (Run(Init(), actions), PassRun(Init(), NO_PASS, actions));
    ObservedReached(actions);
    AtMostTwo(s.heap, s.consumer, s.sink, p);
  }

  lemma AtMostTwo(heap: seq<Buf>, c: Consumer, sink: seq<Bytes>, p: Pass)
    requires PassOk(heap, c, sink, p)
    ensures p.mark <= |sink| <= p.mark + 2
  {
    if !Batching(c) && p.seen != [] {
      FollowedStops(p.seen);
      WritesExact(Replies(p.seen), |p.seen| - 1);
      assert |sink[p.mark..] + ToWrite(heap, c)| == |sink| - p.mark + |ToWrite(heap, c)|;
    }
  }

  lemma {:induction false} StillRunning(msgs: Arrivals, n: nat, k: nat)
    requires AfterTurns(msgs, n).running && !AfterTurns(msgs, k).running
    ensures n < k
    decreases n
  {
    if n > 0 { RunningBefore(msgs, n); }
    if n >= k && n > 0 { StillRunning(msgs, n - 1, k); }
  }

  lemma FollowedEnds(seen: seq<Option<Bytes>>)
    requires Followed(seen) && forall k | 0 <= k < |seen| :: seen[k] != Some([])
    ensures |seen| <= LOG_TEMP_BUFFER_SIZE + 1
  {
    if |seen| > 1 {
      NonEmptyStops(Replies(seen));
      StillRunning(Replies(seen), |seen| - 2, LOG_TEMP_BUFFER_SIZE);
    }
  }

  /** If no message is empty, a pass makes at most 4097 receives, whatever the producers do. */
  lemma PassEnds(actions: seq<Action>)
    ensures var seen := PassRun(Init(), NO_PASS, actions).seen;
            (forall k | 0 <= k < |seen| :: seen[k] != Some([])) ==> |seen| <= LOG_TEMP_BUFFER_SIZE + 1
  {
    var (s, seen) := (Run(Init(), actions), PassRun(Init(), NO_PASS, actions).seen);
    assert seen == [] || Followed(seen) by { ObservedReached(actions); }
    if seen != [] && forall k | 0 <= k < |seen| :: seen[k] != Some([]) { FollowedEnds(seen); }
  }
}
