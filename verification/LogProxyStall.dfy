/** Empty messages take no space in the scratch buffer: a producer that never stops writing them
    holds the consumer in one pass for as long as it likes. */
module LogProxyStall {
  import opened Utf8
  import opened LogBatch
  import opened LogProxy
  import opened LogProxySafety
  import opened LogProxyWrites
  import opened LogProxyPass
  import opened LogProxyProgress

  /** The consumer is about to make turn n + 1 of a pass in which every message was empty. */
  predicate Stalled(s: State, p: Pass, n: nat) {
    && s.consumer.Head? && s.queue == [] && PassOk(s.heap, s.consumer, s.sink, p)
    && |p.seen| == n + 1 && forall k | 0 <= k <= n :: p.seen[k] == Some([])
  }

  lemma {:induction false} PassJoin(s: State, p: Pass, x: seq<Action>, y: seq<Action>)
    ensures PassRun(s, p, x + y) == PassRun(Run(s, x), PassRun(s, p, x), y)
    decreases |x|
  {
    if x == [] {
      assert x + y == y;
    } else {
      assert (x + y)[1..] == x[1..] + y;
      PassJoin(Next(s, x[0]), PassNext(s, p, x[0]), x[1..], y);
    }
  }

  // ---- a Write call, and the consumer until its next receive -----------------------------------------

  lemma {:induction false} TurnsKeep(s: State, p: Pass, c: nat, n: nat)
    requires c < |s.calls|
    ensures var s' := Run(s, TurnsOf(c, n));
            && s'.consumer == s.consumer && s'.sink == s.sink && s'.dequeued == s.dequeued
            && PassRun(s, p, TurnsOf(c, n)) == p
    decreases n
  {
    if n > 0 {
      assert TurnsOf(c, n)[1..] == TurnsOf(c, n - 1);
      CallFrame(s, c);
      TurnsKeep(CallTurn(s, c), p, c, n - 1);
    }
  }

  /** A call of Write from begin to end. */
  function WriteAll(s: State, arg: Bytes): seq<Action> { [Begin(arg)] + TurnsOf(|s.calls|, CallRank(Start)) }

  lemma WritesOne(s: State, p: Pass, arg: Bytes)
    requires Inv(s) && s.queue == []
    ensures var s' := Run(s, WriteAll(s, arg));
            && s'.consumer == s.consumer && s'.sink == s.sink && PassRun(s, p, WriteAll(s, arg)) == p
            && |s'.queue| == 1 && Data(s', s'.queue[0]) == arg
  {
    var (c, s1) := (|s.calls|, Next(s, Begin(arg)));
    assert WriteAll(s, arg)[1..] == TurnsOf(c, CallRank(Start));
    InvNext(s, Begin(arg));
    assert s1.calls[c] == WriteCall(arg, Start);
    WriteSucceeds(s1, c, CallRank(Start));
    TurnsKeep(s1, p, c, CallRank(Start));
  }

  /** In a loop that goes on, the consumer comes to its next receive. */
  function UntilHead(s: State): (n: nat)
    requires Batching(s.consumer) && LoopOf(s.heap, s.consumer).running
    decreases Rank(s.consumer)
  {
    if s.consumer.Head? then 0 else
    BatchStep(s);
    HeadNearer(s);
    1 + UntilHead(ConsumerTurn(s))
  }

  lemma HeadNearer(s: State)
    requires Batching(s.consumer) && !s.consumer.Head? && Batching(ConsumerTurn(s).consumer)
    ensures Rank(ConsumerTurn(s).consumer) < Rank(s.consumer) && ConsumerTurn(s).queue == s.queue
    ensures forall p :: PassNext(s, p, Consume) == p
  {
  }

  lemma {:induction false} ComesToHead(s: State, p: Pass)
    requires Batching(s.consumer) && LoopOf(s.heap, s.consumer).running
    ensures var s' := Run(s, Turns(UntilHead(s)));
            s'.consumer.Head? && s'.queue == s.queue && PassRun(s, p, Turns(UntilHead(s))) == p
    decreases Rank(s.consumer)
  {
    if !s.consumer.Head? {
      BatchStep(s);
      HeadNearer(s);
      assert Turns(UntilHead(s))[1..] == Turns(UntilHead(ConsumerTurn(s)));
      ComesToHead(ConsumerTurn(s), p);
    }
  }

  // ---- one more turn -----------------------------------------------------------------------------------

  lemma EmptyRunning(seen: seq<Option<Bytes>>)
    requires seen != [] && forall k | 0 <= k < |seen| :: seen[k] == Some([])
    ensures LoopNow(seen).running
  {
    var msgs := Replies(seen);
    forall j | 1 <= j <= |seen| - 1 ensures !Ends(msgs, j) { EmptyTotal(msgs, j + 1); }
    RunningExact(msgs, |seen| - 1);
  }

  lemma {:induction false} PassOkRun(s: State, p: Pass, actions: seq<Action>)
    requires Inv(s) && PassOk(s.heap, s.consumer, s.sink, p)
    ensures var s' := Run(s, actions); Inv(s') && PassOk(s'.heap, s'.consumer, s'.sink, PassRun(s, p, actions))
    decreases |actions|
  {
    if actions != [] {
      InvNext(s, actions[0]);
      PassStep(s, p, actions[0]);
      PassOkRun(Next(s, actions[0]), PassNext(s, p, actions[0]), actions[1..]);
    }
  }

  /** An empty message comes in, and the consumer receives it. */
  function Feeding(s: State): seq<Action> { WriteAll(s, []) + [Consume] }

  lemma FeedsOne(s: State, p: Pass)
    requires Inv(s) && s.queue == [] && (s.consumer.Head? || s.consumer.Await?)
    ensures var s' := Run(s, Feeding(s));
            && s'.queue == []
            && (if s.consumer.Await? then s'.consumer.Head? else s'.consumer.Decide?)
            && PassRun(s, p, Feeding(s)).seen == (if s.consumer.Await? then [] else p.seen) + [Some([])]
  {
    var s1 := Run(s, WriteAll(s, []));
    WritesOne(s, p, []);
    RunJoin(s, WriteAll(s, []), [Consume]);
    PassJoin(s, p, WriteAll(s, []), [Consume]);
    assert [Consume][1..] == [];
    assert Run(s1, [Consume]) == ConsumerTurn(s1) && PassRun(s1, p, [Consume]) == PassNext(s1, p, Consume);
    assert Reply(s1) == Some([]);
  }

  lemma StallStep(s: State, p: Pass, n: nat)
    requires Inv(s) && Stalled(s, p, n)
    ensures exists more :: Stalled(Run(s, more), PassRun(s, p, more), n + 1)
  {
    var (s1, p1) := (Run(s, Feeding(s)), PassRun(s, p, Feeding(s)));
    FeedsOne(s, p);
    PassOkRun(s, p, Feeding(s));
    EmptyRunning(p1.seen);
    var rest := Turns(UntilHead(s1));
    ComesToHead(s1, p1);
    PassOkRun(s1, p1, rest);
    RunJoin(s, Feeding(s), rest);
    PassJoin(s, p, Feeding(s), rest);
    assert Stalled(Run(s, Feeding(s) + rest), PassRun(s, p, Feeding(s) + rest), n + 1);
  }

  /** By the end of a run its latest pass is such a one. */
  predicate StalledBy(actions: seq<Action>, n: nat) {
    Stalled(Run(Init(), actions), PassRun(Init(), NO_PASS, actions), n)
  }

  lemma StallBegins()
    ensures StalledBy(Feeding(Init()), 0)
  {
    InvInit();
    FeedsOne(Init(), NO_PASS);
    PassOkRun(Init(), NO_PASS, Feeding(Init()));
  }

  lemma StallGoesOn(actions: seq<Action>, n: nat)
    requires n > 0 && StalledBy(actions, n - 1)
    ensures exists longer :: StalledBy(longer, n)
  {
    var (s, p) := (Run(Init(), actions), PassRun(Init(), NO_PASS, actions));
    assert Inv(s) by { Reachable(actions); }
    StallStep(s, p, n - 1);
    var more :| Stalled(Run(s, more), PassRun(s, p, more), n);
    RunJoin(Init(), actions, more);
    PassJoin(Init(), NO_PASS, actions, more);
    assert StalledBy(actions + more, n);
  }

  /** For every n there is a run in which one pass of the consumer has made n turns and goes on. */
  lemma {:induction false} EmptyStalls(n: nat)
    ensures exists actions :: StalledBy(actions, n)
  {
    if n == 0 {
      StallBegins();
    } else {
      EmptyStalls(n - 1);
      var actions :| StalledBy(actions, n - 1);
      StallGoesOn(actions, n);
    }
  }
}
