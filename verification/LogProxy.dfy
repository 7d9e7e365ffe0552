/** The asynchronous log writer as a protocol: any number of Write calls, one consumer, an
    eight-slot cache of buffers and a bounded channel. Every action is one atomic step: a load, a
    compare-and-swap, a channel operation, a copy, a sink write. Actions interleave freely. */
module LogProxy {
  import opened Utf8

  const SLOTS := 8
  const MAX_LOG_CHAN_SIZE := 2048
  const DEFAULT_LOG_BUFFER_SIZE := 256
  const LOG_TEMP_BUFFER_SIZE := 4096

  /** Pointers to buffers are positions in the heap. */
  type Pointer = nat
  type SlotIndex = i: int | 0 <= i < SLOTS
  type Slots = s: seq<Option<Pointer>> | |s| == SLOTS witness [None, None, None, None, None, None, None, None]

  /** BufferWrap: the slice and its capacity. */
  datatype Buf = Buf(data: Bytes, cap: nat)

  /** Where a Write call is. Scan and Loaded are inside GetBuffer. */
  datatype Pc =
    | Start
    | Scan(i: nat)
    | Loaded(slot: SlotIndex, seen: Pointer)
    | Taken(buf: Pointer)
    | Ready(buf: Pointer)
    | Waiting(buf: Pointer)
    | Done(ok: bool)

  datatype WriteCall = WriteCall(arg: Bytes, pc: Pc)

  /** What follows a PutBuffer. */
  datatype Rest =
    | ThenCopy(temp: Bytes, next: Pointer)
    | ThenHead(temp: Bytes)
    | ThenTemp(temp: Bytes, last: Option<Pointer>)
    | ThenAwait

  /** Where the consumer is in writeLog, with firstLog, tempBuffer and nextLog. */
  datatype Consumer =
    | Await
    | Head(first: Option<Pointer>, temp: Bytes)
    | Decide(first: Option<Pointer>, temp: Bytes, next: Pointer)
    | CopyNext(temp: Bytes, next: Pointer)
    | Flush(first: Option<Pointer>, temp: Bytes, last: Option<Pointer>)
    | FlushTemp(temp: Bytes, last: Option<Pointer>)
    | FlushNext(last: Option<Pointer>)
    | Put(buf: Pointer, i: nat, rest: Rest)

  /** The last three fields are history: the calls whose buffer was enqueued, the buffers
      dequeued, and the buffers handed to PutBuffer, each in order. */
  datatype State = State(heap: seq<Buf>, slots: Slots, queue: seq<Pointer>, calls: seq<WriteCall>, consumer: Consumer,
                         sink: seq<Bytes>, sent: seq<nat>, dequeued: seq<Pointer>, offered: seq<Pointer>)

  function Init(): State {
    State([], [None, None, None, None, None, None, None, None], [], [], Await, [], [], [], [])
  }

  datatype Action =
    | Begin(arg: Bytes)
    | Turn(c: nat)
    | TimeOut(c: nat)
    | Consume

  /** An action that is not enabled leaves the state as it is. */
  function Next(s: State, a: Action): State {
    match a
    case Begin(arg) => s.(calls := s.calls + [WriteCall(arg, Start)])
    case Turn(c) => if c < |s.calls| then CallTurn(s, c) else s
    case TimeOut(c) => if c < |s.calls| && s.calls[c].pc.Waiting? then Goto(s, c, Done(false)) else s
    case Consume => ConsumerTurn(s)
  }

  function Run(s: State, actions: seq<Action>): State
    decreases |actions|
  {
    if actions == [] then s else Run(Next(s, actions[0]), actions[1..])
  }

  // ---- a Write call -------------------------------------------------------------------------

  function Goto(s: State, c: nat, pc: Pc): State
    requires c < |s.calls|
  {
    s.(calls := s.calls[c := s.calls[c].(pc := pc)])
  }

  function Lookup(heap: seq<Buf>, b: Pointer): Buf { if b < |heap| then heap[b] else Buf([], 0) }

  function Zeros(n: nat): (z: Bytes)
    ensures |z| == n
  {
    seq(n, _ => 0)
  }

  /** NewBufferWrap */
  function Allocate(s: State, c: nat, n: nat): State
    requires c < |s.calls|
  {
    Goto(s.(heap := s.heap + [Buf(Zeros(n), n)]), c, Taken(|s.heap|))
  }

  /** BufferWrap.Copy: what does not fit is cut off. */
  function Copied(b: Buf, src: Bytes): Buf {
    b.(data := if |src| > b.cap then src[..b.cap] else src)
  }

  function Send(s: State, c: nat, b: Pointer): State
    requires c < |s.calls|
  {
    Goto(s.(queue := s.queue + [b], sent := s.sent + [c]), c, Done(true))
  }

  function CallTurn(s: State, c: nat): State
    requires c < |s.calls|
  {
    var call := s.calls[c];
    match call.pc
    case Start =>
      if |call.arg| > DEFAULT_LOG_BUFFER_SIZE then Allocate(s, c, |call.arg|) else Goto(s, c, Scan(0))
    case Scan(i) =>
      if i >= SLOTS then Allocate(s, c, DEFAULT_LOG_BUFFER_SIZE)
      else if s.slots[i].None? then Goto(s, c, Scan(i + 1))
      else Goto(s, c, Loaded(i, s.slots[i].value))
    case Loaded(i, seen) =>
      if s.slots[i] == Some(seen) then Goto(s.(slots := s.slots[i := None]), c, Taken(seen))
      else Goto(s, c, Scan(i + 1))
    case Taken(b) =>
      Goto(if b < |s.heap| then s.(heap := s.heap[b := Copied(s.heap[b], call.arg)]) else s, c, Ready(b))
    case Ready(b) =>
      if |s.queue| < MAX_LOG_CHAN_SIZE then Send(s, c, b) else Goto(s, c, Waiting(b))
    case Waiting(b) =>
      if |s.queue| < MAX_LOG_CHAN_SIZE then Send(s, c, b) else s
    case Done(_) => s
  }

  // ---- the consumer ----------------------------------------------------------------------------

  function Data(s: State, b: Pointer): Bytes { Lookup(s.heap, b).data }

  function Receive(s: State): State
    requires s.queue != []
  {
    s.(queue := s.queue[1..], dequeued := s.dequeued + [s.queue[0]])
  }

  /** The call of PutBuffer. */
  function Offer(s: State, b: Pointer, rest: Rest): State {
    s.(consumer := Put(b, 0, rest), offered := s.offered + [b])
  }

  function Resume(rest: Rest): Consumer {
    match rest
    case ThenCopy(temp, next) => CopyNext(temp, next)
    case ThenHead(temp) => Head(None, temp)
    case ThenTemp(temp, last) => FlushTemp(temp, last)
    case ThenAwait => Await
  }

  function ConsumerTurn(s: State): State {
    match s.consumer
    case Await =>
      if s.queue == [] then s else Receive(s).(consumer := Head(Some(s.queue[0]), []))
    case Head(first, temp) =>
      if s.queue == [] then s.(consumer := Flush(first, temp, None))
      else Receive(s).(consumer := Decide(first, temp, s.queue[0]))
    case Decide(None, temp, next) =>
      if |temp| > LOG_TEMP_BUFFER_SIZE - |Data(s, next)| then s.(consumer := Flush(None, temp, Some(next)))
      else s.(consumer := CopyNext(temp, next))
    case Decide(Some(b), temp, next) =>
      if |Data(s, b)| > LOG_TEMP_BUFFER_SIZE - |Data(s, next)| then s.(consumer := Flush(Some(b), temp, Some(next)))
      else Offer(s, b, ThenCopy(temp + Data(s, b), next))
    case CopyNext(temp, next) => Offer(s, next, ThenHead(temp + Data(s, next)))
    case Flush(None, temp, last) => s.(consumer := FlushTemp(temp, last))
    case Flush(Some(b), temp, last) => Offer(s.(sink := s.sink + [Data(s, b)]), b, ThenTemp(temp, last))
    case FlushTemp(temp, last) =>
      (if |temp| > 0 then s.(sink := s.sink + [temp]) else s).(consumer := FlushNext(last))
    case FlushNext(None) => s.(consumer := Await)
    case FlushNext(Some(b)) => Offer(s.(sink := s.sink + [Data(s, b)]), b, ThenAwait)
    case Put(b, i, rest) =>
      if Lookup(s.heap, b).cap != DEFAULT_LOG_BUFFER_SIZE || i >= SLOTS then s.(consumer := Resume(rest))
      else if s.slots[i].None? then s.(slots := s.slots[i := Some(b)], consumer := Resume(rest))
      else s.(consumer := Put(b, i + 1, rest))
  }
}
