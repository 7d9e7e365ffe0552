/** When a Write call fails: it finds the channel full, waits, and is timed out while it waits. In
    all other cases it is accepted as soon as it finds room. */
module LogProxyVerdicts {
  import opened Utf8
  import opened LogProxy
  import opened LogProxySafety
  import opened LogProxyWrites
  import opened LogProxyProgress

  predicate At(s: State, c: nat, pc: Pc) { c < |s.calls| && s.calls[c].pc == pc }

  predicate Waits(s: State, c: nat) { c < |s.calls| && s.calls[c].pc.Waiting? }

  // ---- one step ------------------------------------------------------------------------------------

  /** A call fails only by its time-out, and only while it waits. */
  lemma FailsByTimeOut(s: State, c: nat, a: Action)
    requires !At(s, c, Done(false)) && At(Next(s, a), c, Done(false))
    ensures a == TimeOut(c) && Waits(s, c)
  {
    match a {
      case Begin(_) =>
      case Turn(d) => if d < |s.calls| { TurnNoFailure(s, d); OthersStay(s, d); }
      case TimeOut(_) =>
      case Consume => HistoryKept(s);
    }
  }

  lemma TurnNoFailure(s: State, c: nat)
    requires c < |s.calls|
    ensures |CallTurn(s, c).calls| == |s.calls|
    ensures CallTurn(s, c).calls[c].pc == Done(false) ==> s.calls[c].pc == Done(false)
  {
  }

  lemma OthersStay(s: State, c: nat)
    requires c < |s.calls|
    ensures |CallTurn(s, c).calls| == |s.calls|
    ensures forall d | 0 <= d < |s.calls| && d != c :: CallTurn(s, c).calls[d] == s.calls[d]
  {
  }

  /** A time-out does end the call that waits, with an error; nothing else happens. */
  lemma TimeOutFails(s: State, c: nat)
    requires Waits(s, c)
    ensures Next(s, TimeOut(c)) == s.(calls := s.calls[c := WriteCall(s.calls[c].arg, Done(false))])
  {
  }

  /** A call starts to wait only by a turn that finds the channel full. */
  lemma WaitsByFull(s: State, c: nat, a: Action)
    requires !Waits(s, c) && Waits(Next(s, a), c)
    ensures a == Turn(c) && c < |s.calls| && s.calls[c].pc.Ready? && !Room(s)
  {
    match a {
      case Begin(_) =>
      case Turn(d) => if d < |s.calls| { OthersStay(s, d); TurnToWaiting(s, d); }
      case TimeOut(_) =>
      case Consume => HistoryKept(s);
    }
  }

  lemma TurnToWaiting(s: State, c: nat)
    requires c < |s.calls| && CallTurn(s, c).calls[c].pc.Waiting? && !s.calls[c].pc.Waiting?
    ensures s.calls[c].pc.Ready? && !Room(s)
  {
  }

  /** At a full channel it does start to wait, with its buffer. */
  lemma FullWaits(s: State, c: nat, b: Pointer)
    requires At(s, c, Ready(b)) && !Room(s)
    ensures Next(s, Turn(c)) == s.(calls := s.calls[c := WriteCall(s.calls[c].arg, Waiting(b))])
  {
  }

  // ---- whole runs ------------------------------------------------------------------------------------

  /** The state in which action k of a run is taken. */
  function Before(actions: seq<Action>, k: nat): State
    requires k <= |actions|
  {
    Run(Init(), actions[..k])
  }

  /** Action k is a turn of the call that finds the channel full. */
  predicate MetFull(actions: seq<Action>, c: nat, k: nat) {
    && k < |actions| && actions[k] == Turn(c)
    && var s := Before(actions, k); c < |s.calls| && s.calls[c].pc.Ready? && !Room(s)
  }

  /** Action k is the time-out of the call, which waits. */
  predicate TimedOut(actions: seq<Action>, c: nat, k: nat) {
    k < |actions| && actions[k] == TimeOut(c) && Waits(Before(actions, k), c)
  }

  lemma BeforeNext(actions: seq<Action>, k: nat)
    requires k < |actions|
    ensures Before(actions, k + 1) == Next(Before(actions, k), actions[k])
  {
    assert actions[..k + 1] == actions[..k] + [actions[k]] && [actions[k]][1..] == [];
    RunJoin(Init(), actions[..k], [actions[k]]);
  }

  lemma {:induction false} WaitingMetFull(actions: seq<Action>, c: nat, k: nat)
    requires k <= |actions| && Waits(Before(actions, k), c)
    ensures exists i :: 0 <= i < k && MetFull(actions, c, i)
    decreases k
  {
    if k > 0 {
      BeforeNext(actions, k - 1);
      if Waits(Before(actions, k - 1), c) {
        WaitingMetFull(actions, c, k - 1);
      } else {
        WaitsByFull(Before(actions, k - 1), c, actions[k - 1]);
        assert MetFull(actions, c, k - 1);
      }
    }
  }

  lemma {:induction false} FailedTimedOut(actions: seq<Action>, c: nat, k: nat)
    requires k <= |actions| && At(Before(actions, k), c, Done(false))
    ensures exists j :: 0 <= j < k && TimedOut(actions, c, j)
    decreases k
  {
    if k > 0 {
      BeforeNext(actions, k - 1);
      if At(Before(actions, k - 1), c, Done(false)) {
        FailedTimedOut(actions, c, k - 1);
      } else {
        FailsByTimeOut(Before(actions, k - 1), c, actions[k - 1]);
        assert TimedOut(actions, c, k - 1);
      }
    }
  }

  /** In every run: a call that failed had met a full channel, and was timed out later, while it
      waited. */
  lemma FailureExact(actions: seq<Action>, c: nat)
    requires At(Run(Init(), actions), c, Done(false))
    ensures exists i, j :: 0 <= i < j && MetFull(actions, c, i) && TimedOut(actions, c, j)
  {
    assert actions[..|actions|] == actions;
    FailedTimedOut(actions, c, |actions|);
    var j :| 0 <= j < |actions| && TimedOut(actions, c, j);
    WaitingMetFull(actions, c, j);
    var i :| 0 <= i < j && MetFull(actions, c, i);
  }

  // ---- the second chance -------------------------------------------------------------------------------

  /** The call itself does nothing meanwhile, and is not timed out. */
  predicate LeavesAlone(actions: seq<Action>, c: nat) {
    forall k | 0 <= k < |actions| :: actions[k] != Turn(c) && actions[k] != TimeOut(c)
  }

  lemma StepLeaves(s: State, c: nat, a: Action)
    requires c < |s.calls| && a != Turn(c) && a != TimeOut(c)
    ensures c < |Next(s, a).calls| && Next(s, a).calls[c] == s.calls[c]
  {
    match a {
      case Begin(_) =>
      case Turn(d) => if d < |s.calls| { OthersStay(s, d); }
      case TimeOut(_) =>
      case Consume => HistoryKept(s);
    }
  }

  lemma {:induction false} RunLeaves(s: State, c: nat, actions: seq<Action>)
    requires c < |s.calls| && LeavesAlone(actions, c) && Inv(s)
    ensures var s' := Run(s, actions); Inv(s') && c < |s'.calls| && s'.calls[c] == s.calls[c]
    decreases |actions|
  {
    if actions != [] {
      StepLeaves(s, c, actions[0]);
      InvNext(s, actions[0]);
      RunLeaves(Next(s, actions[0]), c, actions[1..]);
    }
  }

  /** A call that met a full channel is accepted, with exactly its message, if there is room when it
      is next on, whatever the others did in between. */
  lemma SecondChance(s: State, c: nat, b: Pointer, meanwhile: seq<Action>)
    requires Inv(s) && At(s, c, Ready(b)) && !Room(s) && LeavesAlone(meanwhile, c)
    requires Room(Run(Next(s, Turn(c)), meanwhile))
    ensures var s' := Run(Next(s, Turn(c)), meanwhile);
            && c < |s'.calls| && s'.calls[c].arg == s.calls[c].arg
            && WasAccepted(s', c, Next(s', Turn(c)))
  {
    var s1 := Next(s, Turn(c));
    InvNext(s, Turn(c));
    FullWaits(s, c, b);
    RunLeaves(s1, c, meanwhile);
    SendAccepts(Run(s1, meanwhile), c, b);
  }

  /** One receive by the consumer is enough. */
  lemma ReceiveMakesRoom(s: State, c: nat, b: Pointer)
    requires Inv(s) && At(s, c, Ready(b)) && !Room(s) && Receives(s)
    ensures var s' := Next(Next(s, Turn(c)), Consume);
            && c < |s'.calls| && s'.calls[c].arg == s.calls[c].arg
            && WasAccepted(s', c, Next(s', Turn(c)))
  {
    var s1 := Next(s, Turn(c));
    FullWaits(s, c, b);
    assert [Consume][1..] == [] && Run(s1, [Consume]) == Next(s1, Consume);
    HeldReceived(s1);
    SecondChance(s, c, b, [Consume]);
  }
}
