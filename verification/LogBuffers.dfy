/** Buffers as memory, and the cache that recycles them (logger/logproxy/log_proxy_buffer.go).
    One goroutine at a time; LogProxy has the interleavings. */
module LogBuffers {
  import opened Utf8
  import opened LogProxy
  import Sequences

  /** A slice: the first len bytes of an array, whose length is the capacity. */
  class BufferWrap {
    const buf: array<byte>
    var len: nat

    ghost predicate Valid()
      reads this
    {
      len <= buf.Length
    }

    function Contents(): Bytes
      requires Valid()
      reads this, buf
    {
      buf[..len]
    }

    constructor (n: nat)
      ensures Valid() && fresh(buf) && buf.Length == n && Contents() == Zeros(n)
    {
      buf := new byte[n](_ => 0);
      len := n;
      new;
      assert Contents() == Zeros(n);
    }

    /** What does not fit is cut off; the protocol shows that nothing ever is. */
    method Copy(src: Bytes)
      modifies this`len, buf
      ensures Valid() && Buf(Contents(), buf.Length) == Copied(Buf(old(buf[..]), buf.Length), src)
      ensures Contents() == if |src| > buf.Length then src[..buf.Length] else src
    {
      var n := |src|;
      if n > buf.Length { n := buf.Length; }
      len := n;
      forall i | 0 <= i < n { buf[i] := src[i]; }
      assert Contents() == src[..n];
    }
  }

  // ---- the cache ---------------------------------------------------------------------------------

  /** The first slot that is, or is not, empty. */
  function FirstSlot(slots: seq<BufferWrap?>, empty: bool): (i: nat)
    ensures i <= |slots|
    ensures i < |slots| ==> ((slots[i] == null) <==> empty)
    ensures forall k | 0 <= k < i :: (slots[k] == null) <==> !empty
  {
    if slots == [] || (slots[0] == null) == empty then 0 else 1 + FirstSlot(slots[1..], empty)
  }

  /** The slots after PutBuffer. */
  function PutInto(slots: seq<BufferWrap?>, b: BufferWrap): (r: seq<BufferWrap?>)
    ensures |r| == |slots|
  {
    var i := FirstSlot(slots, true);
    if b.buf.Length != DEFAULT_LOG_BUFFER_SIZE || i == |slots| then slots else slots[i := b]
  }

  /** The slots after handing back several buffers, the first one first. */
  function PutEach(slots: seq<BufferWrap?>, bs: seq<BufferWrap>): (r: seq<BufferWrap?>)
    ensures |r| == |slots|
    decreases |bs|
  {
    if bs == [] then slots else PutInto(PutEach(slots, bs[..|bs| - 1]), bs[|bs| - 1])
  }

  lemma PutEachNext(slots: seq<BufferWrap?>, bs: seq<BufferWrap>, mark: nat, b: BufferWrap)
    requires mark <= |bs|
    ensures Some(PutEach(slots, (bs + [b])[mark..])) == Some(PutInto(PutEach(slots, bs[mark..]), b))
  {
    var (before, after) := (bs[mark..], (bs + [b])[mark..]);
    assert after == before + [b] && after[..|after| - 1] == before;
  }

  class LogBufferCache {
    const list: array<BufferWrap?>

    predicate Valid()
      reads this, list
    {
      && list.Length == SLOTS
      && forall i | 0 <= i < list.Length :: list[i] != null ==> list[i].buf.Length == DEFAULT_LOG_BUFFER_SIZE
    }

    constructor ()
      ensures Valid() && fresh(list) && forall i | 0 <= i < SLOTS :: list[i] == null
    {
      list := new BufferWrap?[SLOTS](_ => null);
    }

    /** The buffer of the first full slot, which is emptied, or a new one; it always has room. */
    method GetBuffer(n: nat) returns (b: BufferWrap)
      requires Valid()
      modifies list
      ensures Valid() && n <= b.buf.Length
      ensures var (was, i) := (old(list[..]), FirstSlot(old(list[..]), false));
              if n <= DEFAULT_LOG_BUFFER_SIZE && i < SLOTS then b == was[i] && list[..] == was[i := null]
              else list[..] == was && fresh(b) && fresh(b.buf)
                   && b.buf.Length == if n > DEFAULT_LOG_BUFFER_SIZE then n else DEFAULT_LOG_BUFFER_SIZE
    {
      if n > DEFAULT_LOG_BUFFER_SIZE {
        b := new BufferWrap(n);
        return;
      }
      for i := 0 to SLOTS
        invariant list[..] == old(list[..]) && forall k | 0 <= k < i :: list[k] == null
      {
        var seen := list[i];
        if seen != null {
          list[i] := null;
          b := seen;
          assert FirstSlot(old(list[..]), false) == i;
          return;
        }
      }
      b := new BufferWrap(DEFAULT_LOG_BUFFER_SIZE);
    }

    /** A buffer of the default capacity goes into the first empty slot; any other, or one that
        finds no empty slot, is dropped. */
    method PutBuffer(b: BufferWrap)
      requires Valid()
      modifies list
      ensures Valid() && list[..] == PutInto(old(list[..]), b)
      ensures var was := old(list[..]);
              forall i | 0 <= i < SLOTS && was[i] == null && forall k | 0 <= k < i :: was[k] != null ::
                list[i] == if b.buf.Length == DEFAULT_LOG_BUFFER_SIZE then b else null
      ensures forall i | 0 <= i < SLOTS && (old(list[i]) != null || exists k | 0 <= k < i :: old(list[k]) == null) ::
                list[i] == old(list[i])
    {
      if b.buf.Length != DEFAULT_LOG_BUFFER_SIZE { return; }
      for i := 0 to SLOTS
        invariant list[..] == old(list[..]) && forall k | 0 <= k < i :: list[k] != null
      {
        if list[i] == null {
          list[i] := b;
          assert FirstSlot(old(list[..]), true) == i;
          return;
        }
      }
    }
  }

  // ---- different memory --------------------------------------------------------------------------

  /** The buffers of the cache, and those in use. */
  function All(slots: seq<BufferWrap?>, queue: seq<BufferWrap>): (all: seq<BufferWrap?>)
    ensures |all| == |slots| + |queue|
    ensures forall k | 0 <= k < |all| :: all[k] == if k < |slots| then slots[k] else queue[k - |slots|]
  {
    slots + queue
  }

  predicate Different(a: BufferWrap?, b: BufferWrap?) { a != null && b != null ==> a != b && a.buf != b.buf }

  /** No two of them are the same, or use the same memory. */
  predicate Apart(slots: seq<BufferWrap?>, queue: seq<BufferWrap>) {
    var all := All(slots, queue);
    forall i, j | 0 <= i < j < |all| :: Different(all[i], all[j])
  }

  /** A buffer that left its slot may be queued. */
  lemma TakenApart(slots: seq<BufferWrap?>, queue: seq<BufferWrap>, i: nat)
    requires i < |slots| && slots[i] != null && Apart(slots, queue)
    ensures Apart(slots[i := null], queue) && Apart(slots[i := null], queue + [slots[i]])
    ensures forall k | 0 <= k < |queue| :: Different(queue[k], slots[i])
  {
    var (was, off, now) := (All(slots, queue), All(slots[i := null], queue), All(slots[i := null], queue + [slots[i]]));
    assert forall k | 0 <= k < |was| :: off[k] == now[k] == if k == i then null else was[k];
    assert now[|was|] == was[i];
    assert forall k | 0 <= k < |was| :: Different(now[k], now[|was|]);
    assert forall k | 0 <= k < |queue| :: was[|slots| + k] == queue[k];
  }

  lemma NewApart(slots: seq<BufferWrap?>, queue: seq<BufferWrap>, b: BufferWrap)
    requires Apart(slots, queue) && forall k | 0 <= k < |slots| + |queue| :: Different(All(slots, queue)[k], b)
    ensures Apart(slots, queue + [b]) && forall k | 0 <= k < |queue| :: Different(queue[k], b)
  {
    assert forall k | 0 <= k < |queue| :: All(slots, queue)[|slots| + k] == queue[k];
    assert forall k | 0 <= k < |slots| + |queue| :: All(slots, queue + [b])[k] == All(slots, queue)[k];
  }

  /** What GetBuffer gives is apart from all buffers in use. */
  lemma GotApart(slots: seq<BufferWrap?>, slots': seq<BufferWrap?>, held: seq<BufferWrap>, queue: seq<BufferWrap>,
                 b: BufferWrap)
    requires Apart(slots, held + queue)
    requires var i := FirstSlot(slots, false);
             || (i < |slots| && slots[i] == b && slots' == slots[i := null])
             || (slots' == slots && forall k | 0 <= k < |slots| + |held + queue| ::
                                      Different(All(slots, held + queue)[k], b))
    ensures Apart(slots', held + queue) && Apart(slots', held + (queue + [b]))
    ensures forall k | 0 <= k < |held + queue| :: Different((held + queue)[k], b)
  {
    var i := FirstSlot(slots, false);
    Sequences.Assoc(held, queue, [b]);
    if i < |slots| && slots[i] == b && slots' == slots[i := null] {
      TakenApart(slots, held + queue, i);
    } else {
      NewApart(slots, held + queue, b);
    }
  }

  lemma DifferentParts(held: seq<BufferWrap>, queue: seq<BufferWrap>, b: BufferWrap)
    requires forall k | 0 <= k < |held + queue| :: Different((held + queue)[k], b)
    ensures forall k | 0 <= k < |held| :: Different(held[k], b)
    ensures forall k | 0 <= k < |queue| :: Different(queue[k], b)
  {
    assert forall k | 0 <= k < |held| :: (held + queue)[k] == held[k];
    assert forall k | 0 <= k < |queue| :: (held + queue)[|held| + k] == queue[k];
  }

  /** Handing a buffer back keeps memory apart. */
  lemma PutApart(slots: seq<BufferWrap?>, queue: seq<BufferWrap>)
    requires queue != [] && Apart(slots, queue)
    ensures Apart(PutInto(slots, queue[0]), queue[1..])
  {
    var (was, now, n) := (All(slots, queue), All(PutInto(slots, queue[0]), queue[1..]), |slots|);
    var i := FirstSlot(slots, true);
    assert forall k | n <= k < |now| :: now[k] == was[k + 1];
    assert forall k | 0 <= k < n :: now[k] == was[k] || (k == i && now[k] == was[n]);
  }

  /** The buffers and their memory belong to a set of objects. */
  ghost predicate Within(bs: seq<BufferWrap?>, repr: set<object>) {
    forall k | 0 <= k < |bs| && bs[k] != null :: bs[k] in repr && bs[k].buf in repr
  }

  /** The buffers hold these messages. */
  ghost predicate Carries(bs: seq<BufferWrap>, ms: seq<Bytes>)
    reads bs, set b <- bs :: b.buf
  {
    && |ms| == |bs|
    && forall k | 0 <= k < |bs| :: bs[k].Valid() && Some(bs[k].Contents()) == Some(ms[k])
  }

  lemma ShiftedApart(held: seq<BufferWrap>, queue: seq<BufferWrap>)
    requires queue != []
    ensures Some((held + [queue[0]]) + queue[1..]) == Some(held + queue)
  {
    Sequences.Assoc(held, [queue[0]], queue[1..]);
    assert [queue[0]] + queue[1..] == queue;
  }

  lemma HandedApart(offered: seq<BufferWrap>, held: seq<BufferWrap>, queue: seq<BufferWrap>)
    requires held != []
    ensures (held + queue)[0] == held[0] && Some((held + queue)[1..]) == Some(held[1..] + queue)
    ensures Some(offered + held) == Some((offered + [held[0]]) + held[1..])
  {
    assert (held + queue)[1..] == held[1..] + queue;
    Sequences.Assoc(offered, [held[0]], held[1..]);
    assert [held[0]] + held[1..] == held;
  }

  /** The buffers among two that are there. */
  function Pair(a: BufferWrap?, b: BufferWrap?): seq<BufferWrap> {
    if a == null then if b == null then [] else [b]
    else if b == null then [a] else [a, b]
  }
}
