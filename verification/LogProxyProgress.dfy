/** Nobody waits for nothing: the consumer alone empties the channel into the sink, and a call
    alone gets its message accepted if the channel has room. */
module LogProxyProgress {
  import opened Utf8
  import opened LogProxy
  import opened LogProxySafety
  import opened LogProxyWrites
  import Sequences

  function RankRest(rest: Rest): nat {
    match rest
    case ThenCopy(_, _) => 35
    case ThenHead(_) => 24
    case ThenTemp(_, _) => 12
    case ThenAwait => 0
  }

  function Rank(c: Consumer): nat {
    match c
    case Await => 0
    case FlushNext(_) => 11
    case FlushTemp(_, _) => 12
    case Flush(_, _, _) => 23
    case Head(_, _) => 24
    case CopyNext(_, _) => 35
    case Decide(_, _, _) => 46
    case Put(_, i, rest) => RankRest(rest) + if i < SLOTS then SLOTS + 1 - i else 1
  }

  function Work(s: State): nat { 100 * |s.queue| + Rank(s.consumer) }

  predicate Idle(s: State) { s.consumer == Await && s.queue == [] }

  lemma WorkDecreases(s: State)
    requires !Idle(s)
    ensures Work(ConsumerTurn(s)) < Work(s)
  {
  }

  /** How many turns the consumer needs until it waits on an empty channel. */
  function TurnsLeft(s: State): (n: nat)
    ensures n == 0 <==> Idle(s)
    decreases Work(s)
  {
    if Idle(s) then 0 else
    WorkDecreases(s);
    1 + TurnsLeft(ConsumerTurn(s))
  }

  function Turns(n: nat): seq<Action> { if n == 0 then [] else [Consume] + Turns(n - 1) }

  lemma HistoryKept(s: State)
    ensures ConsumerTurn(s).sent == s.sent && ConsumerTurn(s).calls == s.calls
  {
  }

  lemma {:induction false} RunsDry(s: State)
    ensures var s' := Run(s, Turns(TurnsLeft(s))); Idle(s') && s'.sent == s.sent && s'.calls == s.calls
    decreases Work(s)
  {
    if !Idle(s) {
      WorkDecreases(s);
      var (n, next) := (TurnsLeft(s), ConsumerTurn(s));
      HistoryKept(s);
      assert Turns(n)[1..] == Turns(n - 1);
      RunsDry(next);
    }
  }

  lemma IdleDelivery(s: State)
    requires Delivery(s) && Idle(s)
    ensures Some(Sequences.Concat(s.sink)) == Some(Sequences.Concat(Args(s.calls, s.sent)))
  {
    var (args, out) := (Args(s.calls, s.sent), Sequences.Concat(s.sink));
    assert args[..|args|] == args && out + [] == out;
  }

  lemma {:induction false} RunJoin(s: State, x: seq<Action>, y: seq<Action>)
    ensures Run(s, x + y) == Run(Run(s, x), y)
    decreases |x|
  {
    if x == [] {
      assert x + y == y;
    } else {
      assert (x + y)[1..] == x[1..] + y;
      RunJoin(Next(s, x[0]), x[1..], y);
    }
  }

  /** A run, and then only the consumer, until it waits on an empty channel. */
  function Completed(actions: seq<Action>): seq<Action> { actions + Turns(TurnsLeft(Run(Init(), actions))) }

  /** The messages the channel has accepted by the end of a run. */
  function Messages(actions: seq<Action>): seq<Bytes> { LogProxyWrites.Accepted(Run(Init(), actions)) }

  lemma CompletedRun(actions: seq<Action>)
    ensures var (s, s') := (Run(Init(), actions), Run(Init(), Completed(actions)));
            Idle(s') && s'.sent == s.sent && s'.calls == s.calls
  {
    var s := Run(Init(), actions);
    RunJoin(Init(), actions, Turns(TurnsLeft(s)));
    RunsDry(s);
  }

  /** From every reachable state, if no more calls act, the consumer stops after finitely many
      turns. Then the sink has received the accepted messages in order, each whole in one write;
      only empty ones may have none. */
  lemma Drains(actions: seq<Action>)
    ensures var (s, s') := (Run(Init(), actions), Run(Init(), Completed(actions)));
            var groups := GroupsRun(Init(), [], Completed(actions));
            && Idle(s') && |Messages(actions)| == |s.sent|
            && Some(Sequences.Concat(s'.sink)) == Some(Sequences.Concat(Messages(actions)))
            && WholeWrites(Messages(actions), s'.sink, groups)
            && Blank(Messages(actions), End(groups), |Messages(actions)|)
  {
    var all := Completed(actions);
    CompletedRun(actions);
    assert Delivery(Run(Init(), actions)) by { Reachable(actions); }
    assert Delivery(Run(Init(), all)) by { Reachable(all); }
    IdleDelivery(Run(Init(), all));
    WholeMessages(all);
    NothingLeft(all);
  }

  // ---- a Write call alone ------------------------------------------------------------------------

  function CallRank(pc: Pc): nat {
    match pc
    case Start => 30
    case Scan(i) => if i < SLOTS then 4 + 2 * (SLOTS - i) else 4
    case Loaded(i, _) => 3 + 2 * (SLOTS - i)
    case Taken(_) => 3
    case Ready(_) => 2
    case Waiting(_) => 1
    case Done(_) => 0
  }

  predicate Room(s: State) { |s.queue| < MAX_LOG_CHAN_SIZE }

  /** One turn of a call: it sends its buffer, or comes closer to that and changes nothing else
      that the others can see but the cache. */
  lemma CallAdvances(s: State, c: nat)
    requires c < |s.calls| && !s.calls[c].pc.Done? && Room(s)
    ensures var s' := CallTurn(s, c);
            && c < |s'.calls| && s'.calls[c].arg == s.calls[c].arg
            && if s.calls[c].pc.Ready? || s.calls[c].pc.Waiting? then s' == Send(s, c, s.calls[c].pc.buf)
               else s'.queue == s.queue && s'.sent == s.sent && CallRank(s'.calls[c].pc) < CallRank(s.calls[c].pc)
                    && !s'.calls[c].pc.Done?
  {
  }

  function TurnsOf(c: nat, n: nat): seq<Action> { if n == 0 then [] else [Turn(c)] + TurnsOf(c, n - 1) }

  lemma {:induction false} DoneStays(s: State, c: nat, n: nat)
    requires c < |s.calls| && s.calls[c].pc.Done?
    ensures Run(s, TurnsOf(c, n)) == s
  {
    if n > 0 {
      assert TurnsOf(c, n)[1..] == TurnsOf(c, n - 1);
      DoneStays(s, c, n - 1);
    }
  }

  predicate WasAccepted(s: State, c: nat, s': State) {
    && c < |s.calls| && c < |s'.calls| && s'.calls[c] == WriteCall(s.calls[c].arg, Done(true))
    && s'.sent == s.sent + [c]
    && |s'.queue| == |s.queue| + 1 && s'.queue[..|s.queue|] == s.queue
    && Lookup(s'.heap, s'.queue[|s.queue|]).data == s.calls[c].arg
  }

  lemma SendAccepts(s: State, c: nat, b: Pointer)
    requires Inv(s) && c < |s.calls| && s.calls[c].pc in {Ready(b), Waiting(b)}
    ensures WasAccepted(s, c, Send(s, c, b))
  {
    assert CallOk(s.heap, s.calls[c]);
  }

  lemma RunTurns(s: State, c: nat, n: nat)
    requires n > 0 && c < |s.calls|
    ensures Run(s, TurnsOf(c, n)) == Run(CallTurn(s, c), TurnsOf(c, n - 1))
  {
    assert TurnsOf(c, n)[1..] == TurnsOf(c, n - 1);
  }

  /** A call with its buffer filled sends it. */
  lemma WriteSends(s: State, c: nat, n: nat)
    requires Inv(s) && c < |s.calls| && (s.calls[c].pc.Ready? || s.calls[c].pc.Waiting?) && Room(s) && n > 0
    ensures WasAccepted(s, c, Run(s, TurnsOf(c, n)))
  {
    RunTurns(s, c, n);
    CallAdvances(s, c);
    SendAccepts(s, c, s.calls[c].pc.buf);
    DoneStays(CallTurn(s, c), c, n - 1);
  }

  /** If the channel has room, a call that runs undisturbed gets its message accepted, from
      wherever it is: the last queued buffer then holds exactly the message. */
  lemma {:induction false} WriteSucceeds(s: State, c: nat, n: nat)
    requires Inv(s) && c < |s.calls| && !s.calls[c].pc.Done? && Room(s) && n >= CallRank(s.calls[c].pc)
    ensures WasAccepted(s, c, Run(s, TurnsOf(c, n)))
    decreases n
  {
    if s.calls[c].pc.Ready? || s.calls[c].pc.Waiting? {
      WriteSends(s, c, n);
    } else {
      RunTurns(s, c, n);
      CallAdvances(s, c);
      assert Inv(CallTurn(s, c)) by { InvCallTurn(s, c); }
      WriteSucceeds(CallTurn(s, c), c, n - 1);
      AcceptedLater(s, CallTurn(s, c), c, Run(s, TurnsOf(c, n)));
    }
  }

  /** Turns that only came closer do not change what was accepted. */
  lemma AcceptedLater(s: State, s1: State, c: nat, s2: State)
    requires WasAccepted(s1, c, s2) && c < |s.calls| && s1.calls[c].arg == s.calls[c].arg
    requires s1.queue == s.queue && s1.sent == s.sent
    ensures WasAccepted(s, c, s2)
  {
  }
}
