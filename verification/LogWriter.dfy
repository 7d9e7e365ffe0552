/** The log writer on real buffers (logger/logproxy/log_proxy_writer.go): Write, and the batching
    loop of the consumer, with producers at work at each of its receives, so that a buffer may be
    handed back, filled again and received again in one run. LogProxy has all interleavings. */
module LogWriter {
  import opened Utf8
  import opened LogProxy
  import opened LogBatch
  import opened LogBuffers
  import Sequences

  class Writer {
    const tempBuffer: array<byte>
    const cache: LogBufferCache
    /** The channel. */
    var queue: seq<BufferWrap>
    /** Everything written to the underlying writer, one element per call. */
    var sink: seq<Bytes>
    /** The buffers that the consumer has. */
    ghost var held: seq<BufferWrap>
    /** The messages in the queued buffers, and in those that the consumer has. */
    ghost var pending: seq<Bytes>
    ghost var holding: seq<Bytes>
    /** All buffers that ever were in use, and their memory. */
    ghost var repr: set<object>
    /** The buffers received, and those handed back, in order. */
    ghost var dequeued: seq<BufferWrap>
    ghost var offered: seq<BufferWrap>
    /** The cache when the run of writeLog began, and the number of buffers handed back by then. */
    ghost var slots: seq<BufferWrap?>
    ghost var mark: nat

    ghost predicate Valid()
      reads this, cache, cache.list
    {
      tempBuffer.Length == LOG_TEMP_BUFFER_SIZE && cache.Valid()
    }

    /** Besides, nothing is shared: cached buffers, queued buffers, those of the consumer and the
        scratch array are all different memory. What was received was handed back, or is held. */
    ghost predicate Sound()
      reads this, cache, cache.list, held, queue, set b <- held + queue :: b.buf
    {
      && Valid() && |queue| <= MAX_LOG_CHAN_SIZE
      && Apart(cache.list[..], held + queue)
      && Within(cache.list[..], repr) && Within(held, repr) && Within(queue, repr)
      && {this, cache, cache.list, tempBuffer} !! repr
      && Carries(held, holding) && Carries(queue, pending)
      && Some(dequeued) == Some(offered + held)
    }

    /** The cache is what the buffers handed back in this run have made of it. */
    ghost predicate Calm()
      reads this, cache, cache.list
    {
      mark <= |offered| && Some(cache.list[..]) == Some(PutEach(slots, offered[mark..]))
    }

    constructor ()
      ensures Sound() && queue == [] && held == [] && sink == []
    {
      tempBuffer := new byte[LOG_TEMP_BUFFER_SIZE](_ => 0);
      cache := new LogBufferCache();
      queue, sink, held, pending, holding, repr, dequeued, offered := [], [], [], [], [], {}, [], [];
      slots, mark := [], 0;
    }

    // ---- producers -------------------------------------------------------------------------------

    /** The start of Write: a buffer of its own. */
    method Take(n: nat) returns (b: BufferWrap)
      requires Sound()
      modifies cache.list, this`repr
      ensures Sound() && n <= b.buf.Length && old(repr) <= repr && fresh(repr - old(repr))
      ensures Apart(cache.list[..], held + (queue + [b])) && b in repr && b.buf in repr
      ensures forall k | 0 <= k < |held| :: Different(held[k], b)
      ensures forall k | 0 <= k < |queue| :: Different(queue[k], b)
    {
      ghost var was := cache.list[..];
      b := cache.GetBuffer(n);
      repr := repr + {b, b.buf};
      GotApart(was, cache.list[..], held, queue, b);
      DifferentParts(held, queue, b);
    }

    /** Then exactly the message goes into it, and nothing else changes. */
    method Fill(p: Bytes) returns (b: BufferWrap)
      requires Sound()
      modifies cache.list, this`repr, repr
      ensures Sound() && old(repr) <= repr && fresh(repr - old(repr))
      ensures Apart(cache.list[..], held + (queue + [b])) && b in repr && b.buf in repr
      ensures b.Valid() && Some(b.Contents()) == Some(p)
    {
      b := Take(|p|);
      b.Copy(p);
    }

    method Send(b: BufferWrap)
      requires Sound() && |queue| < MAX_LOG_CHAN_SIZE
      requires b.Valid() && Apart(cache.list[..], held + (queue + [b])) && b in repr && b.buf in repr
      modifies this`queue, this`pending
      ensures Sound() && queue == old(queue) + [b] && pending == old(pending) + [b.Contents()]
    {
      queue, pending := queue + [b], pending + [b.Contents()];
    }

    /** Write, while the consumer is not receiving: a message is queued whole, behind the others, if
        the channel has room, and otherwise the wait ends in an error and the message is nowhere.
        What was queued stays, and what the consumer holds. */
    method Write(p: Bytes) returns (n: nat, ok: bool)
      requires Sound()
      modifies this`queue, this`pending, this`repr, cache.list, repr
      ensures Sound() && old(repr) <= repr && fresh(repr - old(repr))
      ensures ok == (|old(queue)| < MAX_LOG_CHAN_SIZE) && n == if ok then |p| else 0
      ensures ok ==> |queue| == |old(queue)| + 1 && queue[..|old(queue)|] == old(queue) && pending == old(pending) + [p]
      ensures !ok ==> queue == old(queue) && pending == old(pending)
    {
      n := |p|;
      var logBuffer := Fill(p);
      if |queue| < MAX_LOG_CHAN_SIZE {
        Send(logBuffer);
        return n, true;
      }
      return 0, false;
    }

    /** Several calls of Write, one after the other. */
    method Arrive(ps: seq<Bytes>)
      requires Sound()
      modifies this`queue, this`pending, this`repr, cache.list, repr
      ensures Sound() && old(repr) <= repr && fresh(repr - old(repr))
      ensures Some(pending) == Some(AcceptAll(old(pending), ps))
      ensures ps == [] && old(Calm()) ==> Calm()
    {
      for i := 0 to |ps|
        invariant Sound() && old(repr) <= repr && fresh(repr - old(repr))
        invariant Some(pending) == Some(AcceptAll(old(pending), ps[..i]))
        invariant i == 0 && old(Calm()) ==> Calm()
      {
        assert ps[..i + 1][..i] == ps[..i];
        var n, ok := Write(ps[i]);
      }
      assert ps[..|ps|] == ps;
    }

    // ---- the consumer ------------------------------------------------------------------------------

    /** A receive from a channel that is not empty. */
    method Receive() returns (b: BufferWrap)
      requires Sound() && queue != []
      modifies this`queue, this`held, this`pending, this`holding, this`dequeued
      ensures Sound() && held == old(held) + [b] && dequeued == old(dequeued) + [b]
      ensures old(pending) != [] && Some(pending) == Some(old(pending)[1..])
      ensures Some(holding) == Some(old(holding) + [old(pending)[0]])
    {
      b := queue[0];
      ShiftedApart(held, queue);
      Sequences.Assoc(offered, held, [b]);
      queue, held, dequeued := queue[1..], held + [b], dequeued + [b];
      pending, holding := pending[1..], holding + [pending[0]];
    }

    /** Producers come first; then a receive that does not block. */
    method Poll(ps: seq<Bytes>) returns (b: BufferWrap?)
      requires Sound()
      modifies this`queue, this`held, this`pending, this`holding, this`dequeued, this`repr
      modifies cache.list, repr
      ensures Sound() && old(repr) <= repr && fresh(repr - old(repr))
      ensures var q := AcceptAll(old(pending), ps);
              && (b == null <==> q == []) && Some(pending) == Some(Others(q))
              && Some(holding) == Some(old(holding) + AsList(Oldest(q)))
              && |dequeued| == |old(dequeued)| + |AsList(Oldest(q))|
      ensures held == if b == null then old(held) else old(held) + [b]
      ensures ps == [] && old(Calm()) ==> Calm()
    {
      Arrive(ps);
      if queue == [] {
        assert holding + [] == holding;
        return null;
      }
      b := Receive();
    }

    /** The first buffer that the consumer holds goes back. */
    method GiveBack(b: BufferWrap)
      requires Sound() && held != [] && held[0] == b
      modifies this`held, this`holding, this`offered, cache.list
      ensures Sound() && held == old(held)[1..] && offered == old(offered) + [b]
      ensures old(holding) != [] && Some(holding) == Some(old(holding)[1..])
      ensures Some(cache.list[..]) == Some(PutInto(old(cache.list[..]), b))
    {
      HandedApart(offered, held, queue);
      PutApart(cache.list[..], held + queue);
      cache.PutBuffer(b);
      held, holding, offered := held[1..], holding[1..], offered + [b];
    }

    /** The same, with what it does to the cache of this run. */
    method HandBack(b: BufferWrap)
      requires Sound() && held != [] && held[0] == b
      modifies this`held, this`holding, this`offered, cache.list
      ensures Sound() && held == old(held)[1..] && old(holding) != [] && Some(holding) == Some(old(holding)[1..])
      ensures old(Calm()) ==> Calm()
    {
      if mark <= |offered| { PutEachNext(slots, offered, mark, b); }
      GiveBack(b);
    }

    /** copy(tempBuffer[curLen:newLen], b.Buffer()): the slice lies within the capacity. */
    method Append(curLen: nat, b: BufferWrap) returns (newLen: nat)
      requires Sound() && held != [] && held[0] == b && curLen + |holding[0]| <= LOG_TEMP_BUFFER_SIZE
      modifies tempBuffer
      ensures Sound() && newLen == curLen + |holding[0]|
      ensures Some(tempBuffer[..newLen]) == Some(old(tempBuffer[..curLen]) + holding[0])
    {
      newLen := curLen + b.len;
      forall i | curLen <= i < newLen { tempBuffer[i] := b.buf[i - curLen]; }
      assert tempBuffer[..newLen] == old(tempBuffer[..curLen]) + b.Contents();
    }

    /** Copy a message into the scratch buffer and hand its buffer back. */
    method Pack(curLen: nat, b: BufferWrap) returns (newLen: nat)
      requires Sound() && held != [] && held[0] == b && curLen + |holding[0]| <= LOG_TEMP_BUFFER_SIZE
      modifies this`held, this`holding, this`offered, tempBuffer, cache.list
      ensures Sound() && old(holding) != [] && newLen == curLen + |old(holding)[0]|
      ensures held == old(held)[1..] && Some(holding) == Some(old(holding)[1..])
      ensures Some(tempBuffer[..newLen]) == Some(old(tempBuffer[..curLen]) + old(holding)[0])
      ensures old(Calm()) ==> Calm()
    {
      newLen := Append(curLen, b);
      HandBack(b);
    }

    /** The variables of writeLog hold what the functional loop holds. */
    ghost predicate Holds(l: Loop, firstLog: BufferWrap?, tempLen: nat, nextLog: BufferWrap?)
      reads this, tempBuffer
    {
      && held == Pair(firstLog, nextLog) && holding == Two(l.first, l.next)
      && (firstLog == null <==> l.first == None) && (nextLog == null <==> l.next == None)
      && tempLen <= LOG_TEMP_BUFFER_SIZE <= tempBuffer.Length && Some(tempBuffer[..tempLen]) == Some(l.temp)
    }

    /** The rest of a turn, once the receive has found a buffer: the guards and the copies. */
    method Round(ghost l: Loop, ghost received: Bytes, firstLog: BufferWrap?, tempLen: nat, nextLog: BufferWrap)
      returns (running: bool, firstLog': BufferWrap?, tempLen': nat)
      requires Sound() && l.running && l.next == None && (l.first.Some? ==> l.temp == [])
      requires Holds(l.(next := Some(received)), firstLog, tempLen, nextLog)
      modifies this`held, this`holding, this`offered, tempBuffer, cache.list
      ensures Sound() && running == LoopTurn(l, Some(received)).running
      ensures Holds(LoopTurn(l, Some(received)), firstLog', tempLen', if running then null else nextLog)
      ensures old(Calm()) ==> Calm()
    {
      running, firstLog', tempLen' := true, firstLog, tempLen;
      if firstLog != null {
        assert firstLog == held[0] && nextLog == held[1] && holding == [l.first.value, received];
        if firstLog.len > LOG_TEMP_BUFFER_SIZE - nextLog.len { return false, firstLog, tempLen; }
        tempLen' := Pack(tempLen, firstLog);
        firstLog' := null;
      } else {
        assert nextLog == held[0] && holding == [received];
        if tempLen > LOG_TEMP_BUFFER_SIZE - nextLog.len { return false, firstLog, tempLen; }
      }
      tempLen' := Pack(tempLen', nextLog);
    }

    /** What the variables of writeLog and the channel hold, as a state of the functional loop;
        `start` buffers had been received before. */
    ghost function Vars(running: bool, start: nat, firstLog: BufferWrap?, tempLen: nat, nextLog: BufferWrap?)
      : Option<Feed>
      reads this, tempBuffer
    {
      if held == Pair(firstLog, nextLog) && |holding| == |held| && start <= |dequeued|
         && tempLen <= LOG_TEMP_BUFFER_SIZE <= tempBuffer.Length
      then
        var first := if firstLog == null then None else Some(holding[0]);
        var next := if nextLog == null then None else Some(holding[|holding| - 1]);
        Some(Feed(Loop(first, tempBuffer[..tempLen], next, running), pending, |dequeued| - start))
      else None
    }

    ghost predicate Follows(f: Feed, start: nat, firstLog: BufferWrap?, tempLen: nat, nextLog: BufferWrap?)
      reads this, tempBuffer
    {
      Vars(f.loop.running, start, firstLog, tempLen, nextLog) == Some(f)
    }

    lemma FollowsHolds(f: Feed, start: nat, firstLog: BufferWrap?, tempLen: nat, nextLog: BufferWrap?)
      ensures Follows(f, start, firstLog, tempLen, nextLog) <==>
              && Holds(f.loop, firstLog, tempLen, nextLog) && Some(pending) == Some(f.pending)
              && |dequeued| == start + f.taken
    {
      if held == Pair(firstLog, nextLog) && |holding| == |held| {
        assert holding == if |held| == 0 then [] else if |held| == 1 then [holding[0]] else [holding[0], holding[1]];
      }
    }

    /** One turn of the loop of writeLog: what the variables hold follows the functional loop,
        whichever buffers the messages travelled in. */
    method Lap(ghost f: Feed, ghost start: nat, ps: seq<Bytes>, firstLog: BufferWrap?, tempLen: nat)
      returns (running: bool, firstLog': BufferWrap?, tempLen': nat, nextLog: BufferWrap?)
      requires Sound() && Follows(f, start, firstLog, tempLen, null)
      requires f.loop.running && f.loop.next == None && (f.loop.first.Some? ==> f.loop.temp == [])
      modifies this`queue, this`held, this`pending, this`holding, this`repr, this`dequeued, this`offered
      modifies tempBuffer, cache.list, repr
      ensures Sound() && old(repr) <= repr && fresh(repr - old(repr))
      ensures Follows(FeedTurn(f, ps), start, firstLog', tempLen', nextLog)
      ensures running == FeedTurn(f, ps).loop.running && (running ==> nextLog == null)
      ensures ps == [] && old(Calm()) ==> Calm()
    {
      ghost var q := AcceptAll(f.pending, ps);
      FollowsHolds(f, start, firstLog, tempLen, null);
      running, firstLog', tempLen' := false, firstLog, tempLen;
      nextLog := NextReceive(f.loop, ps, firstLog, tempLen);
      if nextLog != null {
        running, firstLog', tempLen' := Round(f.loop, q[0], firstLog, tempLen, nextLog);
        if running { nextLog := null; }
      }
      FollowsHolds(FeedTurn(f, ps), start, firstLog', tempLen', nextLog);
    }

    /** The receive of a turn. */
    method NextReceive(ghost l: Loop, ps: seq<Bytes>, firstLog: BufferWrap?, tempLen: nat)
      returns (nextLog: BufferWrap?)
      requires Sound() && Holds(l, firstLog, tempLen, null) && l.next == None
      modifies this`queue, this`held, this`pending, this`holding, this`repr, this`dequeued, cache.list, repr
      ensures Sound() && old(repr) <= repr && fresh(repr - old(repr))
      ensures var q := AcceptAll(old(pending), ps);
              && (nextLog == null <==> q == []) && Some(pending) == Some(Others(q))
              && |dequeued| == |old(dequeued)| + |AsList(Oldest(q))|
              && Holds(l.(next := Oldest(q)), firstLog, tempLen, nextLog)
      ensures ps == [] && old(Calm()) ==> Calm()
    {
      ghost var q := AcceptAll(pending, ps);
      nextLog := Poll(ps);
      assert holding == Two(l.first, Oldest(q)) && held == Pair(firstLog, nextLog);
    }

    /** The loop of writeLog, behind receive 0. `schedule` says which messages producers write in
        front of each receive; `feeds` are the turns of the functional loop, which ends there. */
    method Laps(schedule: Schedule, ghost feeds: seq<Feed>, ghost start: nat, first: BufferWrap)
      returns (firstLog: BufferWrap?, tempLen: nat, nextLog: BufferWrap?, turns: nat)
      requires Sound() && AreTurns(feeds, schedule) && feeds[0].loop.running
      requires Follows(feeds[0], start, first, 0, null)
      modifies this`queue, this`held, this`pending, this`holding, this`repr, this`dequeued, this`offered
      modifies tempBuffer, cache.list, repr
      ensures Sound() && old(repr) <= repr && fresh(repr - old(repr))
      ensures turns < |feeds| && !feeds[turns].loop.running
      ensures Follows(feeds[turns], start, firstLog, tempLen, nextLog)
      ensures Quiet(schedule) && old(Calm()) ==> Calm()
    {
      firstLog, tempLen, nextLog, turns := first, 0, null, 0;
      var running := true;
      ghost var (f, quiet) := (feeds[0], Quiet(schedule) && Calm());
      while running
        invariant turns < |feeds| && f == feeds[turns] && running == f.loop.running && (running ==> nextLog == null)
        invariant Sound() && old(repr) <= repr && fresh(repr - old(repr))
        invariant Follows(f, start, firstLog, tempLen, nextLog)
        invariant quiet ==> Calm()
        decreases |feeds| - turns
      {
        assert quiet ==> Due(schedule, turns + 1) == [];
        TurnsNext(feeds, schedule, turns);
        turns := turns + 1;
        running, firstLog, tempLen, nextLog := Lap(f, start, Due(schedule, turns), firstLog, tempLen);
        f := feeds[turns];
      }
    }

    /** Receive 0, which blocks until something is there. */
    method Open(ps: seq<Bytes>) returns (first: BufferWrap)
      requires Sound() && held == [] && AcceptAll(pending, ps) != []
      modifies this`queue, this`held, this`pending, this`holding, this`repr, this`dequeued, cache.list, repr
      ensures Sound() && old(repr) <= repr && fresh(repr - old(repr))
      ensures Follows(FirstFeed(old(pending), ps), |old(dequeued)|, first, 0, null)
      ensures ps == [] && old(Calm()) ==> Calm()
    {
      ghost var q := AcceptAll(pending, ps);
      var b := Poll(ps);
      first := b;
      assert held == Pair(first, null) && holding == Two(Oldest(q), None);
      FollowsHolds(FirstFeed(old(pending), ps), |old(dequeued)|, first, 0, null);
    }

    /** The whole loop, receive 0 included; it would not outlast `bound` turns. */
    method Batch(schedule: Schedule, ghost bound: nat)
      returns (firstLog: BufferWrap?, tempLen: nat, nextLog: BufferWrap?)
      requires Sound() && held == [] && AcceptAll(pending, Due(schedule, 0)) != []
      requires !FeedAfter(pending, schedule, bound).loop.running
      modifies this`queue, this`held, this`pending, this`holding, this`repr, this`dequeued, this`offered
      modifies tempBuffer, cache.list, repr
      ensures Sound() && old(repr) <= repr && fresh(repr - old(repr))
      ensures Follows(FeedAfter(old(pending), schedule, bound), |old(dequeued)|, firstLog, tempLen, nextLog)
      ensures Quiet(schedule) && old(Calm()) ==> Calm()
    {
      ghost var (p, start) := (pending, |dequeued|);
      FeedsAreTurns(p, schedule, bound);
      var first := Open(Due(schedule, 0));
      var turns;
      firstLog, tempLen, nextLog, turns := Laps(schedule, Feeds(p, schedule, bound), start, first);
      FeedsEnd(p, schedule, bound, turns);
    }

    /** One write of a message that the consumer still has in its buffer. */
    method WriteOut(b: BufferWrap)
      requires Sound() && held != [] && held[0] == b
      modifies this`sink, this`held, this`holding, this`offered, cache.list
      ensures Sound() && held == old(held)[1..] && old(holding) != [] && Some(holding) == Some(old(holding)[1..])
      ensures sink == old(sink) + [old(holding)[0]]
      ensures old(Calm()) ==> Calm()
    {
      sink := sink + [b.Contents()];
      HandBack(b);
    }

    /** The end of a run: what is pending is written and handed back. */
    method Flush(ghost l: Loop, firstLog: BufferWrap?, tempLen: nat, nextLog: BufferWrap?)
      requires Sound() && Holds(l, firstLog, tempLen, nextLog)
      modifies this`sink, this`held, this`holding, this`offered, cache.list
      ensures Sound() && held == [] && Some(sink) == Some(old(sink) + Flushed(l))
      ensures old(Calm()) ==> Calm()
    {
      FlushedInParts(sink, l);
      if firstLog != null { WriteOut(firstLog); }
      if tempLen > 0 { sink := sink + [tempBuffer[..tempLen]]; }
      if nextLog != null { WriteOut(nextLog); }
    }

    /** A run of writeLog, by the functional loop and its channel. */
    method RunLog(schedule: Schedule, ghost bound: nat)
      requires Sound() && held == [] && AcceptAll(pending, Due(schedule, 0)) != []
      requires !FeedAfter(pending, schedule, bound).loop.running
      modifies this`queue, this`sink, this`held, this`pending, this`holding, this`repr, this`dequeued, this`offered
      modifies this`slots, this`mark, tempBuffer, cache.list, repr
      ensures Sound() && old(repr) <= repr && fresh(repr - old(repr)) && held == []
      ensures var f := FeedAfter(old(pending), schedule, bound);
              && Some(sink) == Some(old(sink) + Flushed(f.loop)) && Some(pending) == Some(f.pending)
              && |dequeued| == |old(dequeued)| + f.taken
      ensures slots == old(cache.list[..]) && mark == |old(offered)|
      ensures Quiet(schedule) ==> Calm()
    {
      ghost var f := FeedAfter(pending, schedule, bound);
      slots, mark := cache.list[..], |offered|;
      assert Calm();
      var firstLog, tempLen, nextLog := Batch(schedule, bound);
      FollowsHolds(f, |old(dequeued)|, firstLog, tempLen, nextLog);
      Flush(f.loop, firstLog, tempLen, nextLog);
    }

    /** A run of writeLog, by what its receives see. */
    method RunSeen(schedule: Schedule, ghost stop: nat)
      requires Sound() && held == [] && StopsAt(Seen(pending, schedule), stop)
      modifies this`queue, this`sink, this`held, this`pending, this`holding, this`repr, this`dequeued, this`offered
      modifies this`slots, this`mark, tempBuffer, cache.list, repr
      ensures Sound() && old(repr) <= repr && fresh(repr - old(repr))
      ensures held == [] && Some(dequeued) == Some(offered)
      ensures Some(sink) == Some(old(sink) + Flushed(AfterTurns(Seen(old(pending), schedule), stop)))
      ensures |dequeued| == |old(dequeued)| + Dequeued(Seen(old(pending), schedule), stop)
      ensures Some(pending) == Some(Behind(old(pending), schedule, stop))
      ensures slots == old(cache.list[..]) && mark == |old(offered)|
      ensures Quiet(schedule) ==> Calm()
    {
      FeedResult(pending, schedule, stop);
      RunLog(schedule, stop);
      assert offered + [] == offered;
    }

    /** One run of writeLog while producers write what `schedule` says. It makes the writes of the
        functional loop, leaves in the channel what came too late, and hands back exactly the
        buffers it received, in order; if no producer was at work, the cache is what those made
        of it. No message is lost: what was written, and then what is left, is what was queued and
        then what arrived. */
    method WriteLog(schedule: Schedule, ghost stop: nat)
      requires Sound() && held == [] && StopsAt(Seen(pending, schedule), stop)
      modifies this`queue, this`sink, this`held, this`pending, this`holding, this`repr, this`dequeued, this`offered
      modifies this`slots, this`mark, tempBuffer, cache.list, repr
      ensures Sound() && old(repr) <= repr && fresh(repr - old(repr))
      ensures held == [] && Some(dequeued) == Some(offered)
      ensures Some(sink) == Some(old(sink) + Flushed(AfterTurns(Seen(old(pending), schedule), stop)))
      ensures |dequeued| == |old(dequeued)| + Dequeued(Seen(old(pending), schedule), stop)
      ensures Some(pending) == Some(Behind(old(pending), schedule, stop))
      ensures var all := old(pending) + Arrived(old(pending), schedule, stop);
              && |dequeued| - |old(dequeued)| + |pending| == |all|
              && Some(Sequences.Concat(sink) + Sequences.Concat(pending))
                 == Some(Sequences.Concat(old(sink)) + Sequences.Concat(all))
      ensures slots == old(cache.list[..]) && mark == |old(offered)|
      ensures Quiet(schedule) ==> Calm()
    {
      RunConserves(sink, pending, schedule, stop);
      RunSeen(schedule, stop);
    }

    /** One turn of process when no producer is at work: a prefix of the channel goes to the sink,
        in order, in at most two writes, each of whole messages and a long one of a single message;
        the rest stays queued as it was. */
    method ProcessOne()
      requires Sound() && held == [] && pending != []
      modifies this`queue, this`sink, this`held, this`pending, this`holding, this`repr, this`dequeued, this`offered
      modifies this`slots, this`mark, tempBuffer, cache.list, repr
      ensures Sound() && held == [] && Calm()
      ensures var taken := |dequeued| - |old(dequeued)|;
              && 1 <= taken <= |old(pending)| && Some(pending) == Some(old(pending)[taken..])
              && Some(Sequences.Concat(sink))
                 == Some(Sequences.Concat(old(sink)) + Sequences.Concat(old(pending)[..taken]))
      ensures |sink| <= |old(sink)| + 2
      ensures AreRuns(sink, |old(sink)|, old(pending)[..|dequeued| - |old(dequeued)|])
    {
      ghost var stop := QuietStop(pending);
      ghost var msgs := Seen(pending, []);
      ghost var (writes, taken) := (Flushed(AfterTurns(msgs, stop)), Dequeued(msgs, stop));
      QuietRun(sink, pending, stop);
      RunSeen([], stop);
      assert Some(sink) == Some(old(sink) + writes) && |dequeued| - |old(dequeued)| == taken;
    }
  }
}
