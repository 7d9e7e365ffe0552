/** What one run of writeLog does with the messages that its receives see, as functions. */
module LogBatch {
  import opened Utf8
  import opened LogProxy
  import Sequences

  /** Receive k gives message k, or finds the channel empty. */
  type Arrivals = nat -> Option<Bytes>

  // ---- the loop ------------------------------------------------------------------------------

  /** firstLog, tempBuffer and nextLog, and whether the loop goes on. */
  datatype Loop = Loop(first: Option<Bytes>, temp: Bytes, next: Option<Bytes>, running: bool)

  function Two(x: Option<Bytes>, y: Option<Bytes>): seq<Bytes> {
    if x.None? then AsList(y) else if y.None? then [x.value] else [x.value, y.value]
  }

  /** One turn: a receive that does not block, and the two guards. */
  function LoopTurn(l: Loop, received: Option<Bytes>): Loop {
    if received.None? then l.(running := false)
    else if l.first.Some? then
      if |l.first.value| > LOG_TEMP_BUFFER_SIZE - |received.value| then l.(next := received, running := false)
      else Loop(None, l.temp + l.first.value + received.value, None, true)
    else if |l.temp| > LOG_TEMP_BUFFER_SIZE - |received.value| then l.(next := received, running := false)
    else Loop(None, l.temp + received.value, None, true)
  }

  /** The loop after n turns; receive 0, which blocks, comes before the first. */
  function AfterTurns(msgs: Arrivals, n: nat): Loop {
    if n == 0 then Loop(msgs(0), [], None, true) else
    var l := AfterTurns(msgs, n - 1);
    if l.running then LoopTurn(l, msgs(n)) else l
  }

  lemma RunningBefore(msgs: Arrivals, n: nat)
    requires n > 0 && AfterTurns(msgs, n).running
    ensures AfterTurns(msgs, n - 1).running
  {
  }

  /** Every receive of a loop that runs has found a message. */
  lemma RunningReceived(msgs: Arrivals, n: nat)
    requires n > 0 && AfterTurns(msgs, n).running
    ensures msgs(n).Some?
  {
  }

  /** The sink writes behind the loop. */
  function Flushed(l: Loop): seq<Bytes> {
    AsList(l.first) + (if |l.temp| > 0 then [l.temp] else []) + AsList(l.next)
  }

  /** The writes one by one. */
  lemma FlushedInParts(sink: seq<Bytes>, l: Loop)
    ensures var s1 := if l.first.Some? then sink + [l.first.value] else sink;
            var s2 := if |l.temp| > 0 then s1 + [l.temp] else s1;
            var s3 := if l.next.Some? then s2 + [l.next.value] else s2;
            Some(s3) == Some(sink + Flushed(l))
  {
    var temp := if |l.temp| > 0 then [l.temp] else [];
    Sequences.Assoc(sink, AsList(l.first) + temp, AsList(l.next));
    Sequences.Assoc(sink, AsList(l.first), temp);
    assert forall s: seq<Bytes> :: s + [] == s;
  }

  // ---- what the loop looks at ------------------------------------------------------------------

  function Message(msgs: Arrivals, k: nat): Bytes { if msgs(k).Some? then msgs(k).value else [] }

  /** The first k messages. */
  function First(msgs: Arrivals, k: nat): (ms: seq<Bytes>)
    ensures |ms| == k
  {
    if k == 0 then [] else First(msgs, k - 1) + [Message(msgs, k - 1)]
  }

  function Total(msgs: Arrivals, k: nat): nat { |Sequences.Concat(First(msgs, k))| }

  /** Receive j finds nothing, or its message takes the lengths past the scratch buffer. */
  predicate Ends(msgs: Arrivals, j: nat) { msgs(j).None? || Total(msgs, j + 1) > LOG_TEMP_BUFFER_SIZE }

  /** Receive j is the first after receive 0 to do so. */
  predicate StopsAt(msgs: Arrivals, j: nat) {
    && j >= 1
    && Ends(msgs, j)
    && msgs(0).Some?
    && forall k | 1 <= k < j :: !Ends(msgs, k)
  }

  function Dequeued(msgs: Arrivals, stop: nat): nat { if msgs(stop).None? then stop else stop + 1 }

  lemma TotalNext(msgs: Arrivals, k: nat)
    ensures Total(msgs, k + 1) == Total(msgs, k) + |Message(msgs, k)|
    ensures Some(Sequences.Concat(First(msgs, k + 1))) == Some(Sequences.Concat(First(msgs, k)) + Message(msgs, k))
  {
    Sequences.ConcatLast(First(msgs, k), Message(msgs, k));
  }

  /** While the loop runs, it has joined all messages so far, but for a first one that is alone. */
  predicate HasJoined(msgs: Arrivals, n: nat, l: Loop) {
    && l.first == (if n == 0 then msgs(0) else None) && l.next == None
    && Some(l.temp) == Some(if n == 0 then [] else Sequences.Concat(First(msgs, n + 1)))
  }

  /** A turn from there goes on exactly when its receive does not end the loop. */
  lemma TurnExact(msgs: Arrivals, n: nat, l: Loop)
    requires msgs(0).Some? && l.running && HasJoined(msgs, n, l)
    ensures var l' := LoopTurn(l, msgs(n + 1));
            && (l'.running <==> !Ends(msgs, n + 1))
            && (if l'.running then HasJoined(msgs, n + 1, l') else l' == l.(next := msgs(n + 1), running := false))
  {
    TotalNext(msgs, 0);
    TotalNext(msgs, n + 1);
    assert n == 0 ==> [] + Message(msgs, 0) == Message(msgs, 0);
  }

  /** The loop is still running after n turns exactly when none of receives 1 to n found nothing
      or took the lengths past the limit. */
  lemma {:induction false} RunningExact(msgs: Arrivals, n: nat)
    requires msgs(0).Some?
    ensures var l := AfterTurns(msgs, n);
            && (l.running <==> forall j | 1 <= j <= n :: !Ends(msgs, j))
            && (l.running ==> HasJoined(msgs, n, l))
  {
    if n > 0 {
      RunningExact(msgs, n - 1);
      var l := AfterTurns(msgs, n - 1);
      if l.running { TurnExact(msgs, n - 1, l); }
    }
  }

  /** What it leaves behind at the receive that ends it: a first message that was alone, the
      joined messages, and the message that did not fit. */
  lemma StoppedExact(msgs: Arrivals, stop: nat)
    requires StopsAt(msgs, stop)
    ensures var l := AfterTurns(msgs, stop - 1);
            && l.running && HasJoined(msgs, stop - 1, l)
            && AfterTurns(msgs, stop) == l.(next := msgs(stop), running := false)
  {
    RunningExact(msgs, stop - 1);
    TurnExact(msgs, stop - 1, AfterTurns(msgs, stop - 1));
  }

  /** The turn with which the loop stops is the first receive to end it. */
  lemma StoppingTurn(msgs: Arrivals, n: nat)
    requires msgs(0).Some? && AfterTurns(msgs, n).running && !AfterTurns(msgs, n + 1).running
    ensures StopsAt(msgs, n + 1)
  {
    RunningExact(msgs, n);
    RunningExact(msgs, n + 1);
  }

  // ---- the writes --------------------------------------------------------------------------------

  /** At most two writes; their concatenation is the dequeued messages in order. */
  lemma WritesExact(msgs: Arrivals, stop: nat)
    requires StopsAt(msgs, stop)
    ensures var writes := Flushed(AfterTurns(msgs, stop));
            && |writes| <= 2
            && Sequences.Concat(writes) == Sequences.Concat(First(msgs, Dequeued(msgs, stop)))
  {
    var l := AfterTurns(msgs, stop);
    var text := Sequences.Concat(First(msgs, stop));
    var head := AsList(l.first) + (if |l.temp| > 0 then [l.temp] else []);
    StoppedExact(msgs, stop);
    assert |head| <= 1 && Some(Sequences.Concat(head)) == Some(text) by {
      TotalNext(msgs, 0);
      Sequences.ConcatLast([], Message(msgs, 0));
      Sequences.ConcatLast([], l.temp);
      assert [] + Message(msgs, 0) == Message(msgs, 0) && [] + l.temp == l.temp;
      assert [] + [Message(msgs, 0)] == [Message(msgs, 0)] && [] + [l.temp] == [l.temp];
    }
    if l.next.Some? {
      Sequences.ConcatLast(head, l.next.value);
      TotalNext(msgs, stop);
    } else {
      assert head + [] == head;
    }
  }

  /** A write longer than the scratch buffer is one message: messages are not split, and each
      write is a run of whole messages. */
  lemma LongWriteIsOneMessage(msgs: Arrivals, stop: nat, w: Bytes)
    requires StopsAt(msgs, stop) && w in Flushed(AfterTurns(msgs, stop))
    ensures w == Sequences.Concat(First(msgs, stop)) || w == Message(msgs, stop) || w == Message(msgs, 0)
    ensures |w| > LOG_TEMP_BUFFER_SIZE ==> w == Message(msgs, 0) || w == Message(msgs, stop)
  {
    StoppedExact(msgs, stop);
    if stop > 1 {
      assert !Ends(msgs, stop - 1);
    }
  }

  // ---- the loop ends -------------------------------------------------------------------------

  /** The first receive that ends the loop, up to one that is known to. */
  function FirstEnd(msgs: Arrivals, j: nat): (k: nat)
    requires j >= 1 && Ends(msgs, j)
    ensures 1 <= k <= j && Ends(msgs, k) && forall i | 1 <= i < k :: !Ends(msgs, i)
  {
    FirstEndFrom(msgs, 1, j)
  }

  function FirstEndFrom(msgs: Arrivals, i: nat, j: nat): (k: nat)
    requires 1 <= i <= j && Ends(msgs, j) && forall h | 1 <= h < i :: !Ends(msgs, h)
    ensures i <= k <= j && Ends(msgs, k) && forall h | 1 <= h < k :: !Ends(msgs, h)
    decreases j - i
  {
    if Ends(msgs, i) then i else FirstEndFrom(msgs, i + 1, j)
  }

  /** The loop stops after some number of turns exactly when some receive finds nothing or takes
      the lengths past the limit; and then it stops with the first such receive. */
  lemma StopsIff(msgs: Arrivals)
    requires msgs(0).Some?
    ensures (exists n: nat :: !AfterTurns(msgs, n).running) <==> (exists j: nat :: j >= 1 && Ends(msgs, j))
    ensures (exists n: nat :: !AfterTurns(msgs, n).running) <==> (exists j: nat :: StopsAt(msgs, j))
  {
    if n: nat :| !AfterTurns(msgs, n).running {
      RunningExact(msgs, n);
      var j :| 1 <= j <= n && Ends(msgs, j);
      assert StopsAt(msgs, FirstEnd(msgs, j));
    }
    if j: nat :| j >= 1 && Ends(msgs, j) {
      RunningExact(msgs, j);
      assert !AfterTurns(msgs, j).running;
    }
  }

  lemma {:induction false} NonEmptyTotal(msgs: Arrivals, k: nat)
    requires forall i | 0 <= i < k :: msgs(i).Some? && msgs(i).value != []
    ensures Total(msgs, k) >= k
  {
    if k > 0 {
      NonEmptyTotal(msgs, k - 1);
      TotalNext(msgs, k - 1);
    }
  }

  /** Producers that never stop cannot hold the consumer in the loop, if messages are not empty:
      every turn takes space from the scratch buffer. */
  lemma NonEmptyStops(msgs: Arrivals)
    requires msgs(0).Some? && forall k: nat :: msgs(k) != Some([])
    ensures !AfterTurns(msgs, LOG_TEMP_BUFFER_SIZE).running
  {
    var n := LOG_TEMP_BUFFER_SIZE;
    RunningExact(msgs, n);
    if forall j | 1 <= j <= n :: msgs(j).Some? {
      NonEmptyTotal(msgs, n + 1);
      assert Ends(msgs, n);
    } else {
      var j :| 1 <= j <= n && msgs(j).None?;
      assert Ends(msgs, j);
    }
  }

  lemma {:induction false} EmptyTotal(msgs: Arrivals, k: nat)
    requires forall i: nat | i < k :: msgs(i) == Some([])
    ensures Total(msgs, k) == 0
  {
    if k > 0 {
      EmptyTotal(msgs, k - 1);
      TotalNext(msgs, k - 1);
    }
  }

  /** Empty messages that keep coming do hold it there, after any number of turns; LogProxyStall has
      the runs in which they do. */
  lemma EmptyNeverStops(msgs: Arrivals, n: nat)
    requires forall i: nat :: msgs(i) == Some([])
    ensures AfterTurns(msgs, n).running
  {
    forall j | 1 <= j <= n ensures !Ends(msgs, j) { EmptyTotal(msgs, j + 1); }
    RunningExact(msgs, n);
  }

  // ---- producers at work during the loop -----------------------------------------------------------

  /** Element k: the messages whose Write returns between the receive before number k and that
      one. A run that ends makes finitely many receives, so a list is enough. */
  type Schedule = seq<seq<Bytes>>

  function Due(schedule: Schedule, k: nat): seq<Bytes> { if k < |schedule| then schedule[k] else [] }

  /** Producers write nothing. */
  predicate Quiet(schedule: Schedule) { forall k | 0 <= k < |schedule| :: schedule[k] == [] }

  /** A send into the channel, or a time-out if it stays full. */
  function Accept(pending: seq<Bytes>, p: Bytes): seq<Bytes> {
    if |pending| < MAX_LOG_CHAN_SIZE then pending + [p] else pending
  }

  function AcceptAll(pending: seq<Bytes>, ps: seq<Bytes>): seq<Bytes>
    decreases |ps|
  {
    if ps == [] then pending else Accept(AcceptAll(pending, ps[..|ps| - 1]), ps[|ps| - 1])
  }

  function Oldest(q: seq<Bytes>): Option<Bytes> { if q == [] then None else Some(q[0]) }

  function Others(q: seq<Bytes>): seq<Bytes> { if q == [] then [] else q[1..] }

  /** The channel in front of receive k, and behind it. */
  function InFront(pending: seq<Bytes>, schedule: Schedule, k: nat): seq<Bytes>
    decreases k, 0
  {
    AcceptAll(if k == 0 then pending else Behind(pending, schedule, k - 1), Due(schedule, k))
  }

  function Behind(pending: seq<Bytes>, schedule: Schedule, k: nat): seq<Bytes>
    decreases k, 1
  {
    Others(InFront(pending, schedule, k))
  }

  /** What the receives see. */
  function Seen(pending: seq<Bytes>, schedule: Schedule): Arrivals {
    (k: nat) => Oldest(InFront(pending, schedule, k))
  }

  lemma SeenNext(pending: seq<Bytes>, schedule: Schedule, k: nat)
    ensures var q := AcceptAll(Behind(pending, schedule, k), Due(schedule, k + 1));
            Seen(pending, schedule)(k + 1) == Oldest(q) && Some(Behind(pending, schedule, k + 1)) == Some(Others(q))
  {
  }

  /** The loop together with the channel, and the number of messages received so far. */
  datatype Feed = Feed(loop: Loop, pending: seq<Bytes>, taken: nat)

  function FirstFeed(pending: seq<Bytes>, ps: seq<Bytes>): Feed {
    var q := AcceptAll(pending, ps);
    Feed(Loop(Oldest(q), [], None, true), Others(q), |AsList(Oldest(q))|)
  }

  function FeedTurn(f: Feed, ps: seq<Bytes>): Feed {
    var q := AcceptAll(f.pending, ps);
    Feed(LoopTurn(f.loop, Oldest(q)), Others(q), f.taken + |AsList(Oldest(q))|)
  }

  function FeedAfter(pending: seq<Bytes>, schedule: Schedule, n: nat): Feed {
    if n == 0 then FirstFeed(pending, Due(schedule, 0)) else
    var f := FeedAfter(pending, schedule, n - 1);
    if f.loop.running then FeedTurn(f, Due(schedule, n)) else f
  }

  lemma FeedNext(pending: seq<Bytes>, schedule: Schedule, n: nat)
    requires FeedAfter(pending, schedule, n).loop.running
    ensures FeedAfter(pending, schedule, n + 1) == FeedTurn(FeedAfter(pending, schedule, n), Due(schedule, n + 1))
  {
  }

  lemma {:induction false} FeedStays(pending: seq<Bytes>, schedule: Schedule, m: nat, n: nat)
    requires m <= n && !FeedAfter(pending, schedule, m).loop.running
    ensures FeedAfter(pending, schedule, n) == FeedAfter(pending, schedule, m)
  {
    if m < n { FeedStays(pending, schedule, m, n - 1); }
  }

  lemma ShapeTurn(l: Loop, received: Option<Bytes>)
    ensures LoopTurn(l, received).running ==> LoopTurn(l, received).next == None && LoopTurn(l, received).first == None
  {
  }

  /** What the loop may hold while it runs. */
  lemma {:induction false} FeedShape(pending: seq<Bytes>, schedule: Schedule, n: nat)
    ensures var l := FeedAfter(pending, schedule, n).loop;
            l.running ==> l.next == None && (l.first.Some? ==> l.temp == [])
  {
    if n > 0 {
      var f := FeedAfter(pending, schedule, n - 1);
      if f.loop.running { ShapeTurn(f.loop, Oldest(AcceptAll(f.pending, Due(schedule, n)))); }
    }
  }

  lemma AfterNext(msgs: Arrivals, n: nat)
    requires AfterTurns(msgs, n).running
    ensures AfterTurns(msgs, n + 1) == LoopTurn(AfterTurns(msgs, n), msgs(n + 1))
  {
  }

  lemma FeedTurnExact(f: Feed, pending: seq<Bytes>, ps: seq<Bytes>, l: Loop, received: Option<Bytes>)
    requires f.loop == l && Some(f.pending) == Some(pending) && received == Oldest(AcceptAll(pending, ps))
    ensures var f' := FeedTurn(f, ps);
            && f'.loop == LoopTurn(l, received) && Some(f'.pending) == Some(Others(AcceptAll(pending, ps)))
            && f'.taken == f.taken + if received.None? then 0 else 1
  {
  }

  /** With the channel in it, the loop is the loop over what its receives see. */
  lemma {:induction false} FeedExact(pending: seq<Bytes>, schedule: Schedule, n: nat)
    requires n > 0 ==> AfterTurns(Seen(pending, schedule), n - 1).running
    requires Seen(pending, schedule)(0).Some?
    ensures var (f, msgs) := (FeedAfter(pending, schedule, n), Seen(pending, schedule));
            && f.loop == AfterTurns(msgs, n) && Some(f.pending) == Some(Behind(pending, schedule, n))
            && f.taken == if n == 0 then 1 else Dequeued(msgs, n)
  {
    if n > 0 {
      var msgs := Seen(pending, schedule);
      if n > 1 { RunningBefore(msgs, n - 1); }
      FeedExact(pending, schedule, n - 1);
      if n > 1 { RunningReceived(msgs, n - 1); }
      var f := FeedAfter(pending, schedule, n - 1);
      FeedNext(pending, schedule, n - 1);
      AfterNext(msgs, n - 1);
      SeenNext(pending, schedule, n - 1);
      FeedTurnExact(f, Behind(pending, schedule, n - 1), Due(schedule, n), AfterTurns(msgs, n - 1), msgs(n));
    }
  }

  /** The states of the loop up to a turn behind which it no longer runs. */
  function Feeds(pending: seq<Bytes>, schedule: Schedule, bound: nat): (feeds: seq<Feed>)
    ensures |feeds| == bound + 1
  {
    seq(bound + 1, (k: nat) => FeedAfter(pending, schedule, k))
  }

  predicate AreTurns(feeds: seq<Feed>, schedule: Schedule) {
    && feeds != [] && !feeds[|feeds| - 1].loop.running
    && (forall k | 0 <= k < |feeds| - 1 && feeds[k].loop.running ::
          feeds[k + 1] == FeedTurn(feeds[k], Due(schedule, k + 1)))
    && forall k | 0 <= k < |feeds| && feeds[k].loop.running ::
         feeds[k].loop.next == None && (feeds[k].loop.first.Some? ==> feeds[k].loop.temp == [])
  }

  lemma TurnsNext(feeds: seq<Feed>, schedule: Schedule, k: nat)
    requires AreTurns(feeds, schedule) && k < |feeds| && feeds[k].loop.running
    ensures k + 1 < |feeds| && feeds[k + 1] == FeedTurn(feeds[k], Due(schedule, k + 1))
    ensures var l := feeds[k].loop; l.next == None && (l.first.Some? ==> l.temp == [])
  {
  }

  lemma FeedsStep(pending: seq<Bytes>, schedule: Schedule, bound: nat, k: nat)
    requires k < bound && FeedAfter(pending, schedule, k).loop.running
    ensures var feeds := Feeds(pending, schedule, bound);
            feeds[k + 1] == FeedTurn(feeds[k], Due(schedule, k + 1))
  {
    FeedNext(pending, schedule, k);
  }

  lemma FeedsAreTurns(pending: seq<Bytes>, schedule: Schedule, bound: nat)
    requires !FeedAfter(pending, schedule, bound).loop.running
    ensures var feeds := Feeds(pending, schedule, bound);
            AreTurns(feeds, schedule) && feeds[0] == FirstFeed(pending, Due(schedule, 0))
  {
    var feeds := Feeds(pending, schedule, bound);
    forall k | 0 <= k < bound && feeds[k].loop.running
      ensures feeds[k + 1] == FeedTurn(feeds[k], Due(schedule, k + 1))
    {
      FeedsStep(pending, schedule, bound, k);
    }
    forall k | 0 <= k <= bound && feeds[k].loop.running
      ensures feeds[k].loop.next == None && (feeds[k].loop.first.Some? ==> feeds[k].loop.temp == [])
    {
      FeedShape(pending, schedule, k);
    }
  }

  lemma FeedsEnd(pending: seq<Bytes>, schedule: Schedule, bound: nat, n: nat)
    requires !FeedAfter(pending, schedule, bound).loop.running
    requires n <= bound && !Feeds(pending, schedule, bound)[n].loop.running
    ensures Feeds(pending, schedule, bound)[n] == FeedAfter(pending, schedule, bound)
  {
    FeedStays(pending, schedule, n, bound);
  }

  /** The functional loop and its channel at the receive that ends it. */
  lemma FeedResult(pending: seq<Bytes>, schedule: Schedule, stop: nat)
    requires StopsAt(Seen(pending, schedule), stop)
    ensures AcceptAll(pending, Due(schedule, 0)) != []
    ensures var (f, msgs) := (FeedAfter(pending, schedule, stop), Seen(pending, schedule));
            && !f.loop.running && f.loop == AfterTurns(msgs, stop)
            && Some(f.pending) == Some(Behind(pending, schedule, stop)) && f.taken == Dequeued(msgs, stop)
  {
    StoppedExact(Seen(pending, schedule), stop);
    FeedExact(pending, schedule, stop);
  }

  // ---- no message is lost or made up ---------------------------------------------------------------

  /** The first of `ps`, as many as the channel has room for. */
  function Fitting(pending: seq<Bytes>, ps: seq<Bytes>): seq<Bytes> {
    if |pending| + |ps| <= MAX_LOG_CHAN_SIZE then ps
    else if |pending| < MAX_LOG_CHAN_SIZE then ps[..MAX_LOG_CHAN_SIZE - |pending|]
    else []
  }

  /** Calls of Write one after the other append their messages to the channel until it is full. */
  lemma {:induction false} AcceptAllExact(pending: seq<Bytes>, ps: seq<Bytes>)
    ensures AcceptAll(pending, ps) == pending + Fitting(pending, ps)
    decreases |ps|
  {
    if ps != [] {
      var init := ps[..|ps| - 1];
      AcceptAllExact(pending, init);
      assert ps == init + [ps[|ps| - 1]];
    }
  }

  /** The messages that producers got into the channel up to receive k. */
  function Arrived(pending: seq<Bytes>, schedule: Schedule, k: nat): seq<Bytes> {
    if k == 0 then Fitting(pending, Due(schedule, 0))
    else Arrived(pending, schedule, k - 1) + Fitting(Behind(pending, schedule, k - 1), Due(schedule, k))
  }

  /** The messages that the first n receives found. */
  function Received(msgs: Arrivals, n: nat): seq<Bytes> {
    if n == 0 then [] else Received(msgs, n - 1) + AsList(msgs(n - 1))
  }

  lemma OneReceive(before: seq<Bytes>, q: seq<Bytes>)
    ensures Some(before + AsList(Oldest(q)) + Others(q)) == Some(before + q)
  {
    assert AsList(Oldest(q)) + Others(q) == q;
    Sequences.Assoc(before, AsList(Oldest(q)), Others(q));
  }

  lemma Extended(got: seq<Bytes>, left: seq<Bytes>, pending: seq<Bytes>, arrived: seq<Bytes>, more: seq<Bytes>)
    requires Some(got + left) == Some(pending + arrived)
    ensures Some(got + (left + more)) == Some(pending + (arrived + more))
  {
    Sequences.Assoc(got, left, more);
    Sequences.Assoc(pending, arrived, more);
  }

  /** What the receives found, and then what is left, is what was queued and then what arrived. */
  lemma {:induction false} ReceivesConserve(pending: seq<Bytes>, schedule: Schedule, k: nat)
    ensures Some(Received(Seen(pending, schedule), k + 1) + Behind(pending, schedule, k))
         == Some(pending + Arrived(pending, schedule, k))
  {
    var (msgs, q) := (Seen(pending, schedule), InFront(pending, schedule, k));
    OneReceive(Received(msgs, k), q);
    if k == 0 {
      AcceptAllExact(pending, Due(schedule, 0));
      assert [] + q == q;
    } else {
      var (left, more) := (Behind(pending, schedule, k - 1), Due(schedule, k));
      ReceivesConserve(pending, schedule, k - 1);
      AcceptAllExact(left, more);
      Extended(Received(msgs, k), left, pending, Arrived(pending, schedule, k - 1), Fitting(left, more));
    }
  }

  lemma {:induction false} AllReceived(msgs: Arrivals, n: nat)
    requires forall k: nat | k < n :: msgs(k).Some?
    ensures Some(Received(msgs, n)) == Some(First(msgs, n))
  {
    if n > 0 { AllReceived(msgs, n - 1); }
  }

  lemma StopReceived(msgs: Arrivals, stop: nat)
    requires StopsAt(msgs, stop)
    ensures Some(Received(msgs, stop + 1)) == Some(First(msgs, Dequeued(msgs, stop)))
  {
    forall k: nat | k < stop ensures msgs(k).Some? { assert k == 0 || !Ends(msgs, k); }
    AllReceived(msgs, stop);
    assert First(msgs, stop) + [] == First(msgs, stop);
  }

  /** A run loses no message and makes none up: what it wrote, and then what it left queued, is
      what was queued and then what arrived. */
  lemma RunConserves(sink: seq<Bytes>, pending: seq<Bytes>, schedule: Schedule, stop: nat)
    requires StopsAt(Seen(pending, schedule), stop)
    ensures var msgs := Seen(pending, schedule);
            var (left, arrived) := (Behind(pending, schedule, stop), Arrived(pending, schedule, stop));
            && Some(First(msgs, Dequeued(msgs, stop)) + left) == Some(pending + arrived)
            && Some(Sequences.Concat(sink + Flushed(AfterTurns(msgs, stop))) + Sequences.Concat(left))
               == Some(Sequences.Concat(sink) + Sequences.Concat(pending + arrived))
  {
    var msgs := Seen(pending, schedule);
    var (got, writes) := (First(msgs, Dequeued(msgs, stop)), Flushed(AfterTurns(msgs, stop)));
    var left := Behind(pending, schedule, stop);
    ReceivesConserve(pending, schedule, stop);
    StopReceived(msgs, stop);
    WritesExact(msgs, stop);
    Sequences.ConcatJoin(sink, writes);
    Sequences.ConcatJoin(got, left);
    Sequences.Assoc(Sequences.Concat(sink), Sequences.Concat(got), Sequences.Concat(left));
  }

  // ---- no producers ----------------------------------------------------------------------------

  /** Then the receives see what is in the channel, one message after the other. */
  lemma {:induction false} QuietSeen(pending: seq<Bytes>, k: nat)
    ensures Behind(pending, [], k) == if k < |pending| then pending[k + 1..] else []
    ensures Seen(pending, [])(k) == if k < |pending| then Some(pending[k]) else None
  {
    if k > 0 { QuietSeen(pending, k - 1); }
  }

  lemma {:induction false} QuietFirst(pending: seq<Bytes>, n: nat)
    requires n <= |pending|
    ensures First(Seen(pending, []), n) == pending[..n]
  {
    if n > 0 {
      QuietFirst(pending, n - 1);
      QuietSeen(pending, n - 1);
    }
  }

  /** The receive that ends a run over a channel that nobody fills. */
  function QuietStop(pending: seq<Bytes>): nat
    requires pending != []
  {
    QuietSeen(pending, |pending|);
    FirstEnd(Seen(pending, []), |pending|)
  }

  /** Whole messages next to each other, joined; a long text is one of them. */
  predicate IsRun(w: Bytes, ms: seq<Bytes>) {
    exists i, j | 0 <= i < j <= |ms| ::
      Some(w) == Some(Sequences.Concat(ms[i..j])) && (|w| > LOG_TEMP_BUFFER_SIZE ==> j == i + 1)
  }

  /** The writes from number `n` on are such texts. */
  predicate AreRuns(sink: seq<Bytes>, n: nat, ms: seq<Bytes>) {
    forall k | n <= k < |sink| :: IsRun(sink[k], ms)
  }

  lemma OneIsRun(ms: seq<Bytes>, i: nat)
    requires i < |ms|
    ensures IsRun(ms[i], ms)
  {
    assert ms[i..i + 1] == [] + [ms[i]] && [] + ms[i] == ms[i];
    Sequences.ConcatLast([], ms[i]);
  }

  lemma FrontIsRun(ms: seq<Bytes>, j: nat)
    requires 0 < j <= |ms| && |Sequences.Concat(ms[..j])| <= LOG_TEMP_BUFFER_SIZE
    ensures IsRun(Sequences.Concat(ms[..j]), ms)
  {
    assert ms[0..j] == ms[..j];
  }

  lemma QuietTaken(pending: seq<Bytes>, stop: nat)
    requires pending != [] && stop == QuietStop(pending)
    ensures var (msgs, taken) := (Seen(pending, []), Dequeued(Seen(pending, []), stop));
            StopsAt(msgs, stop) && 1 <= taken <= |pending| && Some(Behind(pending, [], stop)) == Some(pending[taken..])
  {
    QuietSeen(pending, 0);
    QuietSeen(pending, stop);
    QuietSeen(pending, |pending|);
    assert pending[|pending|..] == [];
  }

  /** What such a run writes. */
  lemma QuietWhole(pending: seq<Bytes>, stop: nat, w: Bytes)
    requires pending != [] && stop == QuietStop(pending)
    requires w in Flushed(AfterTurns(Seen(pending, []), stop))
    ensures var taken := Dequeued(Seen(pending, []), stop); 1 <= taken <= |pending| && IsRun(w, pending[..taken])
  {
    var msgs := Seen(pending, []);
    QuietTaken(pending, stop);
    QuietSeen(pending, 0);
    QuietSeen(pending, stop);
    StoppedExact(msgs, stop);
    var taken := Dequeued(msgs, stop);
    var ms := pending[..taken];
    if msgs(stop).Some? && w == msgs(stop).value {
      OneIsRun(ms, stop);
    } else if stop == 1 {
      OneIsRun(ms, 0);
    } else {
      QuietFirst(pending, stop);
      assert ms[..stop] == pending[..stop] && !Ends(msgs, stop - 1);
      FrontIsRun(ms, stop);
    }
  }

  /** A run over a channel that nobody fills writes a prefix of it, whole messages in at most two
      writes, and leaves the rest. */
  lemma QuietRun(sink: seq<Bytes>, pending: seq<Bytes>, stop: nat)
    requires pending != [] && stop == QuietStop(pending)
    ensures var (msgs, writes) := (Seen(pending, []), Flushed(AfterTurns(Seen(pending, []), stop)));
            var taken := Dequeued(msgs, stop);
            && StopsAt(msgs, stop) && 1 <= taken <= |pending|
            && Some(Behind(pending, [], stop)) == Some(pending[taken..])
            && Some(Sequences.Concat(sink + writes))
               == Some(Sequences.Concat(sink) + Sequences.Concat(pending[..taken]))
            && |writes| <= 2 && AreRuns(sink + writes, |sink|, pending[..taken])
  {
    var msgs := Seen(pending, []);
    var writes := Flushed(AfterTurns(msgs, stop));
    QuietTaken(pending, stop);
    WritesExact(msgs, stop);
    QuietFirst(pending, Dequeued(msgs, stop));
    Sequences.ConcatJoin(sink, writes);
    forall k | |sink| <= k < |sink + writes| ensures IsRun((sink + writes)[k], pending[..Dequeued(msgs, stop)]) {
      QuietWhole(pending, stop, writes[k - |sink|]);
    }
  }
}
