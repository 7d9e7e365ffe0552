/** What the cache does for a call, or for the consumer, that nobody disturbs: a buffer comes from
    the first full slot and goes to the first empty one. */
module LogProxyCache {
  import opened Utf8
  import opened LogProxy
  import opened LogProxyProgress
  import Sequences

  // ---- GetBuffer -----------------------------------------------------------------------------------

  /** No slot in front of slot i holds a buffer. */
  predicate EmptyBelow(slots: Slots, i: nat) { forall k | 0 <= k < i && k < SLOTS :: slots[k].None? }

  /** The call has the buffer `b`, and the rest is as in `s` but for slots and memory. */
  function WithBuffer(s: State, c: nat, slots: Slots, heap: seq<Buf>, b: Pointer): State
    requires c < |s.calls|
  {
    s.(slots := slots, heap := heap, calls := s.calls[c := WriteCall(s.calls[c].arg, Taken(b))])
  }

  lemma Scans(s: State, c: nat, j: nat, i: nat)
    requires c < |s.calls| && s.calls[c].pc == Scan(j) && j <= i <= SLOTS && EmptyBelow(s.slots, i)
    ensures Run(s, TurnsOf(c, i - j)) == Goto(s, c, Scan(i))
    decreases i - j
  {
    if j == i {
      assert Goto(s, c, Scan(i)) == s;
    } else {
      RunTurns(s, c, i - j);
      assert CallTurn(s, c) == Goto(s, c, Scan(j + 1));
      Scans(Goto(s, c, Scan(j + 1)), c, j + 1, i);
      assert Goto(Goto(s, c, Scan(j + 1)), c, Scan(i)) == Goto(s, c, Scan(i));
    }
  }

  lemma {:induction false} TurnsSplit(c: nat, m: nat, n: nat)
    ensures TurnsOf(c, m + n) == TurnsOf(c, m) + TurnsOf(c, n)
  {
    if m > 0 {
      TurnsSplit(c, m - 1, n);
      Sequences.Assoc([Turn(c)], TurnsOf(c, m - 1), TurnsOf(c, n));
    }
  }

  lemma TurnsJoin(s: State, c: nat, m: nat, n: nat)
    ensures Run(s, TurnsOf(c, m + n)) == Run(Run(s, TurnsOf(c, m)), TurnsOf(c, n))
  {
    TurnsSplit(c, m, n);
    RunJoin(s, TurnsOf(c, m), TurnsOf(c, n));
  }

  lemma OneTurn(s: State, c: nat)
    requires c < |s.calls|
    ensures Run(s, TurnsOf(c, 1)) == CallTurn(s, c)
  {
    RunTurns(s, c, 1);
  }

  /** A call that starts comes to slot i if all slots before are empty. */
  lemma StartScans(s: State, c: nat, i: nat)
    requires c < |s.calls| && s.calls[c].pc == Start && |s.calls[c].arg| <= DEFAULT_LOG_BUFFER_SIZE
    requires i <= SLOTS && EmptyBelow(s.slots, i)
    ensures Run(s, TurnsOf(c, 1 + i)) == Goto(s, c, Scan(i))
  {
    TurnsJoin(s, c, 1, i);
    OneTurn(s, c);
    assert CallTurn(s, c) == Goto(s, c, Scan(0));
    Scans(Goto(s, c, Scan(0)), c, 0, i);
    assert Goto(Goto(s, c, Scan(0)), c, Scan(i)) == Goto(s, c, Scan(i));
  }

  /** It takes the buffer of the first full slot, which is empty then. */
  lemma TakesFirst(s: State, c: nat, i: SlotIndex)
    requires c < |s.calls| && s.calls[c].pc == Start && |s.calls[c].arg| <= DEFAULT_LOG_BUFFER_SIZE
    requires s.slots[i].Some? && EmptyBelow(s.slots, i)
    ensures Run(s, TurnsOf(c, i + 3)) == WithBuffer(s, c, s.slots[i := None], s.heap, s.slots[i].value)
  {
    var (b, s1) := (s.slots[i].value, Goto(s, c, Scan(i)));
    var s2 := Goto(s1, c, Loaded(i, b));
    StartScans(s, c, i);
    TurnsJoin(s, c, 1 + i, 2);
    TurnsJoin(s1, c, 1, 1);
    OneTurn(s1, c);
    assert CallTurn(s1, c) == s2;
    OneTurn(s2, c);
    assert CallTurn(s2, c) == WithBuffer(s, c, s.slots[i := None], s.heap, b);
  }

  /** If all slots are empty, it gets a new buffer of the default capacity. */
  lemma TakesNew(s: State, c: nat)
    requires c < |s.calls| && s.calls[c].pc == Start && |s.calls[c].arg| <= DEFAULT_LOG_BUFFER_SIZE
    requires EmptyBelow(s.slots, SLOTS)
    ensures var n := DEFAULT_LOG_BUFFER_SIZE;
            Run(s, TurnsOf(c, SLOTS + 2)) == WithBuffer(s, c, s.slots, s.heap + [Buf(Zeros(n), n)], |s.heap|)
  {
    var (n, s1) := (DEFAULT_LOG_BUFFER_SIZE, Goto(s, c, Scan(SLOTS)));
    StartScans(s, c, SLOTS);
    TurnsJoin(s, c, 1 + SLOTS, 1);
    OneTurn(s1, c);
    assert CallTurn(s1, c) == WithBuffer(s, c, s.slots, s.heap + [Buf(Zeros(n), n)], |s.heap|);
  }

  /** A longer message gets a buffer of its own length, and the cache is left alone. */
  lemma TakesLong(s: State, c: nat)
    requires c < |s.calls| && s.calls[c].pc == Start && |s.calls[c].arg| > DEFAULT_LOG_BUFFER_SIZE
    ensures var n := |s.calls[c].arg|;
            Run(s, TurnsOf(c, 1)) == WithBuffer(s, c, s.slots, s.heap + [Buf(Zeros(n), n)], |s.heap|)
  {
    OneTurn(s, c);
  }

  // ---- PutBuffer -----------------------------------------------------------------------------------

  predicate FullBetween(slots: Slots, j: nat, i: nat) { forall k | j <= k < i && k < SLOTS :: slots[k].Some? }

  lemma OneConsume(s: State)
    ensures Run(s, Turns(1)) == ConsumerTurn(s)
  {
    assert Turns(1)[1..] == Turns(0);
  }

  lemma {:induction false} PutScans(s: State, b: Pointer, j: nat, i: nat, rest: Rest)
    requires s.consumer == Put(b, j, rest) && j <= i <= SLOTS && FullBetween(s.slots, j, i)
    requires Lookup(s.heap, b).cap == DEFAULT_LOG_BUFFER_SIZE
    ensures Run(s, Turns(i - j)) == s.(consumer := Put(b, i, rest))
    decreases i - j
  {
    if j < i {
      assert Turns(i - j)[1..] == Turns(i - j - 1);
      PutScans(ConsumerTurn(s), b, j + 1, i, rest);
    }
  }

  lemma {:induction false} ConsumesSplit(m: nat, n: nat)
    ensures Turns(m + n) == Turns(m) + Turns(n)
  {
    if m > 0 {
      ConsumesSplit(m - 1, n);
      Sequences.Assoc([Consume], Turns(m - 1), Turns(n));
    }
  }

  lemma ConsumesJoin(s: State, m: nat, n: nat)
    ensures Run(s, Turns(m + n)) == Run(Run(s, Turns(m)), Turns(n))
  {
    ConsumesSplit(m, n);
    RunJoin(s, Turns(m), Turns(n));
  }

  /** A buffer of the default capacity that the consumer hands back goes into the first empty slot. */
  lemma PutsFirst(s: State, b: Pointer, i: SlotIndex, rest: Rest)
    requires s.consumer == Put(b, 0, rest) && Lookup(s.heap, b).cap == DEFAULT_LOG_BUFFER_SIZE
    requires s.slots[i].None? && FullBetween(s.slots, 0, i)
    ensures Run(s, Turns(i + 1)) == s.(slots := s.slots[i := Some(b)], consumer := Resume(rest))
  {
    PutScans(s, b, 0, i, rest);
    ConsumesJoin(s, i, 1);
    OneConsume(s.(consumer := Put(b, i, rest)));
  }

  /** If all slots are full it is dropped, and one of another capacity always is. */
  lemma PutsNothing(s: State, b: Pointer, rest: Rest)
    requires s.consumer == Put(b, 0, rest)
    ensures FullBetween(s.slots, 0, SLOTS) && Lookup(s.heap, b).cap == DEFAULT_LOG_BUFFER_SIZE ==>
              Run(s, Turns(SLOTS + 1)) == s.(consumer := Resume(rest))
    ensures Lookup(s.heap, b).cap != DEFAULT_LOG_BUFFER_SIZE ==> Run(s, Turns(1)) == s.(consumer := Resume(rest))
  {
    OneConsume(s);
    if FullBetween(s.slots, 0, SLOTS) && Lookup(s.heap, b).cap == DEFAULT_LOG_BUFFER_SIZE {
      PutScans(s, b, 0, SLOTS, rest);
      ConsumesJoin(s, SLOTS, 1);
      OneConsume(s.(consumer := Put(b, SLOTS, rest)));
    }
  }
}
