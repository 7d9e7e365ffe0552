# Verified models of vlgo's logger and hot patch

This project models three parts of the repository in Dafny and proves what they are for.

* **The JSON log encoder** (`logger/encoder`) is a printer with almost no state: a byte buffer, a
  `spaced` flag and a count of open namespaces. It decides whether a comma is due by looking at the
  last byte it wrote, copies printed fragments into new documents, and escapes arbitrary bytes. The
  project proves that an independent reader of RFC 8259 (`JsonText`, `JsonString`) undoes it: for
  every configuration, entry and context, exactly when the output is a JSON text, and exactly when
  the text denotes the fields that were meant.
* **The asynchronous log writer** (`logger/logproxy`) passes buffers by pointer from any number of
  `Write` calls to one consumer and recycles them through a lock-free cache. `LogProxy` is a
  transition system with one action per atomic load, compare-and-swap, channel operation, copy and
  sink write; the theorems hold in every state of every run. `LogProxyVerdicts` says when a call
  fails, and `LogProxyCache` what the cache does for one that nobody disturbs. `LogBuffers` and
  `LogWriter` are the code on real arrays, with producers at work in front of each receive of the
  consumer, so that buffers are recycled within one run. Both are proved to do what the functional loop of `LogBatch`
  does: `LogProxyPass` for each pass of the consumer in each run, `LogWriter` for the code.
* **The hot patch** (`hotfix/replace.h`) overwrites 12-byte windows of code, keeps the old bytes in
  a bounded list and restores them in reverse order. `PatchLog` has the functions and the undo
  proofs, `HotPatch` the code on a mutable array of memory.

The first two meet in `LogEndToEnd.EntriesAreLines`: entries that the encoder made, written by any
number of goroutines, are in the end the lines of the log, in the order of acceptance, and each line
denotes what its entry meant exactly under the condition of `EntryText.EntryExact`. The repository
has both ends but does not join them itself: the JSON cores of `logger/logger.go:107` are made with
zapcore's own encoder.

## How the encoder is modelled

| layer | module | partner |
|---|---|---|
| bytes, UTF-8 | `Utf8` | decoding against encoding of code points |
| string escapes | `JsonString` | an RFC 8259 string reader |
| tokens, grammar | `JsonText` | a pushdown reader, exact for the grammar |
| writes | `EncoderOps` | the last-byte test against a tracked context |
| calls | `EncoderCalls`, `EncoderMeaning`, `EncoderScope`, `EncoderFields` | value written against value intended, field by field |
| entries, contexts | `EntryText` | copied fragments against replay |
| the code itself | `JsonEncoder`, `EncoderPool`, `ErrorEncoding` | methods proved against the layers above |

Calls are data: a field, array, object or namespace with the calls its marshaller makes. A
marshaller that returns an error half-way has simply made fewer calls. Callbacks are functions to
the list of primitives they append. Numbers and the text of the reflection-based encoder arrive as
complete compact JSON texts (`CompactJson`).

## What turned out not to hold

The code is modelled as it is. These promises fail, each with a lemma that gives the input, and the
exact conditions are in `EntryText.EntryExact` and `EntryText.ContextExact`:

* An object inside an array that opens a namespace makes the document malformed
  (`EncoderLimits.NamespaceInArray`): `AppendObject` does not save the namespace count.
* An object under a key that opens a namespace keeps the document well formed but swallows the
  fields behind it (`EncoderLimits.NamespaceSwallows`).
* A callback that appends several primitives under a key makes the document malformed. The
  repository's own console callbacks do: `MyCallerEncode` (`EncoderLimits.CallerBreaksEntry`) and
  the console time format, which a single time field drags into the JSON context of a line
  (`EncoderLimits.TimeFieldBreaksContext`).
* In an array, a callback that appends several primitives leaves the document well formed but makes
  several items of one value: with the console time format each time of an array of times becomes
  three strings (`EncoderLimits.TimesSplit`).
* Empty messages that never stop keep `writeLog` in its loop (`LogBatch.EmptyNeverStops`; for every n
  there is a run in which one pass makes n turns and goes on, `LogProxyStall.EmptyStalls`). The loop
  is still running after n turns exactly when none of receives 1 to n found nothing or took the
  lengths past 4096 (`LogBatch.RunningExact`); so it ends exactly when some receive does
  (`LogBatch.StopsIff`).
* The comment above `restore` promises that it leaves things as if nothing had happened. One unsaved
  patch of a function in the main program, which `replace_patch_func_withaddr` takes by its absolute
  address, breaks that (`PatchLog.NoCleanSlate`); a window in the patch library goes away when
  `dlclose` unmaps it. The promise is kept exactly when, for every byte, the last of the patches over
  it before the first saved one wrote what had stood there at first, or there is none
  (`PatchLog.CleanSlateExact`).

## Model

| member | source | states |
|---|---|---|
| Utf8.DecodeRuneExact | logger/encoder/json_encoder.go:444-450 | Decoding is exact: encoding the decoded code point gives the bytes back, and (RuneError, 1) means that no character starts there |
| Utf8.ScalarAccepted | logger/encoder/json_encoder.go:444-450 | Every scalar value, in front of anything, is accepted with its full length and read back: all of Unicode but the surrogates |
| Utf8.CharacterExact | logger/encoder/json_encoder.go:444-450 | A character is accepted exactly when the form of a scalar value starts there, with that value and length |
| Utf8.SanitizeIsValid | logger/encoder/json_encoder.go:502-508 | Replacing rejected bytes by U+FFFD makes any byte string valid UTF-8 |
| Utf8.SanitizeValid | logger/encoder/json_encoder.go:502-508 | Replacing changes nothing exactly when the string is valid UTF-8 |
| Utf8.ValidExact | logger/encoder/json_encoder.go:435-452 | A string is valid exactly when it is the encoding of a list of scalar values |
| Utf8.SanitizeExact | logger/encoder/json_encoder.go:502-508 | By code points: forms of scalar values stay, and a byte where none starts becomes the form of U+FFFD |
| JsonString.EscapeRoundTrip | logger/encoder/json_encoder.go:435-508 | Reading an escaped string gives the string with rejected bytes replaced, and stops at the closing quote whatever follows |
| JsonString.EscapeInjective | logger/encoder/json_encoder.go:435-452 | On valid UTF-8 escaping is the identity for a reader, hence injective |
| JsonString.EscapeSanitized | logger/encoder/json_encoder.go:502-508 | Two strings with the same text agree after replacement |
| JsonString.EscapeClean | logger/encoder/json_encoder.go:472-500 | The output is valid UTF-8, has no raw control byte and no bare quote, and is at most six times as long |
| JsonString.EscapeExact | logger/encoder/json_encoder.go:435-508 | By code points: a scalar value beyond ASCII is copied as its form, a byte where no form starts becomes \ufffd, and an ASCII byte its own escape |
| JsonString.AsciiForms | logger/encoder/json_encoder.go:471-500 | The exact escape of each ASCII byte: printable bytes but quote and backslash stand for themselves |
| JsonString.EscapeIdentity | logger/encoder/json_encoder.go:435-500 | Escaping changes nothing exactly when the string is valid UTF-8 without control bytes, quotes and backslashes |
| JsonText.LexConcat | logger/encoder/json_encoder.go:363-366 | Texts joined where no token runs across the seam have the joined tokens |
| JsonText.ReaderExact | logger/encoder/json_encoder.go:314-382 | The pushdown reader accepts a token sequence as a value exactly when the grammar of RFC 8259 gives it to that value; no text denotes two values |
| EncoderOps.LastByteRefinesContext | logger/encoder/json_encoder.go:394-419 | The last-byte test writes, byte for byte, what a writer that tracks its context stack writes, for every sequence of writes that a JSON text can start with |
| EncoderOps.ParseExec | logger/encoder/json_encoder.go:394-433 | For any writes at all, the buffer is a JSON text for a value exactly when the tracked context ends with that value complete |
| EncoderOps.ExecSplice | logger/encoder/json_encoder.go:363-366 | Copying a printed fragment behind a separator, only if it is not empty, equals printing the same writes in place |
| EncoderCalls.WrittenDepth | logger/encoder/json_encoder.go:163-167 | Well-typed calls end exactly as many objects deeper as namespaces were opened |
| EncoderMeaning.GoodCalls | logger/encoder/json_encoder.go:95-198 | Well-typed calls at any nesting move the reader's state exactly as the written value says |
| EncoderMeaning.BadCalls | logger/encoder/json_encoder.go:184-198 | Any other calls leave the reader in a state no later write recovers from |
| EncoderMeaning.CloseSpaces | logger/encoder/json_encoder.go:388-392 | As many braces as namespaces were opened lead back to the object they were opened in |
| EncoderScope.ScopeExact | logger/encoder/json_encoder.go:163-198 | The members written are the members meant, each time or duration one value, exactly when nothing is added behind an object that opened a namespace and no callback appends several primitives in an array |
| EncoderFields.FieldPlace | logger/encoder/json_encoder.go:95-182 | The value meant, field by field: whatever is around it, a field is one member in its place, with its key and the value of its kind; a failed reflection is none |
| EncoderFields.FieldsNamespace | logger/encoder/json_encoder.go:163-167 | All that is added behind OpenNamespace is meant to be inside one member |
| EncoderFields.ItemPlace | logger/encoder/json_encoder.go:184-190 | An item of an array is meant to be one value in its place; a failed reflection is none |
| EntryText.BracedExact | logger/encoder/json_encoder.go:363-372 | Calls between braces, namespaces closed and a tail added: when this is a JSON text, its value, and when that is the value meant, in which a value given to a callback is one value wherever it stands |
| EntryText.EntryExact | logger/encoder/json_encoder.go:314-382 | Whole-document correctness: an entry is a JSON text if and only if callbacks append at most one primitive under their key and no object in an array opens a namespace, and denotes the value meant if and only if, besides, the context is tidy and no callback appends several primitives in an array |
| EntryText.EntryTopLevel | logger/encoder/json_encoder.go:318-371 | Of the members that an encoded line parses to, from configuration and entry alone: level, time, name, caller and message come first in that order, each present exactly when its key (and name or caller) is, with the callback's answer or the fallback, the message as its text; the stack trace comes last; between them are the fields meant exactly when the context is tidy and each callback value single |
| EntryText.SpacedSame | logger/encoder/json_encoder.go:400-417 | Spaces after commas and colons change neither whether a text parses nor to what |
| EntryText.SpliceReplay | logger/encoder/json_encoder.go:299-312 | Fields added to an encoder before encoding give byte for byte what a fresh encoder gives for them followed by the entry's fields, also with open namespaces or nothing written |
| EntryText.ContextReplay | logger/encoder/console_encoder.go:295-315 | A console context is left out exactly when nothing was written, and is otherwise the object of accumulated and extra fields |
| EntryText.ContextExact | logger/encoder/console_encoder.go:295-309 | When a console context is a JSON text, and when it denotes the fields meant, with one value for each value given to a callback |
| EntryText.LineParses | logger/encoder/json_encoder.go:373-377 | A line ending of whitespace leaves the value of an entry alone |
| EntryText.EntryOneLine | logger/encoder/json_encoder.go:372-377 | With line ending "\n" an entry has exactly one newline, its last byte, whatever messages, keys and fields it holds |
| EntryText.LogSplits | logger/encoder/json_encoder.go:373-377 | Concatenated entries split back into the list of entries |
| JsonEncoder.JsonEncoder.TryAddRuneSelf | logger/encoder/json_encoder.go:471-500 | Appends the escape of an ASCII byte, or nothing for other bytes |
| JsonEncoder.JsonEncoder.TryAddRuneError | logger/encoder/json_encoder.go:502-508 | Appends \ufffd for a byte that starts no character |
| JsonEncoder.JsonEncoder.SafeAddString | logger/encoder/json_encoder.go:435-452 | The index loop appends the escape of the whole string |
| JsonEncoder.JsonEncoder.SafeAddByteString | logger/encoder/json_encoder.go:454-469 | The loop over a byte slice in memory appends the escape of its contents |
| JsonEncoder.JsonEncoder.AddElementSeparator | logger/encoder/json_encoder.go:405-419 | Appends nothing to an empty buffer or behind an opening bracket, colon, comma or space, and otherwise a comma, with a space exactly when spaced |
| JsonEncoder.JsonEncoder.AddKey | logger/encoder/json_encoder.go:394-403 | Appends the separator, the quoted and escaped key and the colon, with a space exactly when spaced |
| JsonEncoder.JsonEncoder.AppendString | logger/encoder/json_encoder.go:253-258 | One text write |
| JsonEncoder.JsonEncoder.AppendByteString | logger/encoder/json_encoder.go:205-210 | The same text write from a byte slice in memory |
| JsonEncoder.JsonEncoder.AppendPrims | logger/encoder/json_encoder.go:226-228 | The writes of a callback, in order |
| JsonEncoder.JsonEncoder.AppendStamp | logger/encoder/json_encoder.go:226-268 | Time, duration and metadata callbacks: what the callback appended, or the fallback if it appended nothing |
| JsonEncoder.JsonEncoder.AppendArray | logger/encoder/json_encoder.go:184-190 | The writes of an array of any nesting, and the namespaces opened inside |
| JsonEncoder.JsonEncoder.AppendObject | logger/encoder/json_encoder.go:192-198 | The writes of an object of any nesting; the namespace count is not restored |
| JsonEncoder.JsonEncoder.AddCall | logger/encoder/json_encoder.go:95-182 | One Add method or OpenNamespace; a failed reflection writes nothing, not even its key |
| JsonEncoder.JsonEncoder.AddFields | logger/encoder/console_encoder.go:317-321 | The loop over fields performs the writes of all of them, in order |
| JsonEncoder.JsonEncoder.OpenNamespaceKey | logger/encoder/json_encoder.go:163-167 | Key and brace are written, and the count grows by one |
| JsonEncoder.JsonEncoder.CloseOpenNamespaces | logger/encoder/json_encoder.go:388-392 | One brace per open namespace |
| EncoderPool.Pools.GetEncoder | logger/encoder/json_encoder.go:43-45 | A pooled encoder comes out blank and reaches no buffer, or a new one is made |
| EncoderPool.Pools.PutEncoder | logger/encoder/json_encoder.go:47-58 | An encoder goes back cleared, without its buffer |
| EncoderPool.Pools.NewEncoder | logger/encoder/json_encoder.go:87-93 | A new encoder with no history; the others keep theirs |
| EncoderPool.Pools.Clone | logger/encoder/json_encoder.go:299-312 | The clone has the same history and a buffer of its own |
| EncoderPool.Pools.AddField | logger/encoder/json_encoder.go:95-182 | A call on one encoder extends that encoder's history and no other's |
| EncoderPool.Pools.EncodeEntry | logger/encoder/json_encoder.go:314-382 | The buffer holds the document of history and fields, then the configured line ending or a newline; no encoder in use changes, and no encoder reaches the returned buffer |
| EncoderPool.Pools.WriteContext | logger/encoder/console_encoder.go:295-315 | If no call wrote anything the line stays; otherwise it is extended by one space, unless it was empty, and by the object of history and extra fields, which denotes their fields exactly under the condition of ContextExact |
| ErrorEncoding.ErrorRoundTrip | logger/encoder/error.go:47-117 | For every finite tree of errors the object written is a JSON text and decodes to the tree in normal form: nil causes dropped, empty group distinct from leaf, verbose text only where it differs |
| ErrorEncoding.NormalExact | logger/encoder/error.go:47-94 | The normal form is the tree itself exactly when all texts are UTF-8, verbose texts differ from messages and no cause is nil; then the round trip is the identity |
| ErrorEncoding.ErrorFields | logger/encoder/error.go:47-63 | The members of an error: its message under the key, the verbose text under key + Verbose only if it differs, the causes under key + Causes |
| ErrorEncoding.ErrorDecodes | logger/encoder/error.go:47-94 | The members the calls stand for decode to the normal form |
| ErrorEncoding.EncodeError | logger/encoder/error.go:47-63 | The method performs exactly the writes of the error's calls; afterwards the pool has all the holders it had before, besides new ones, and every one is empty |
| ErrorEncoding.MarshalErrArray | logger/encoder/error.go:83-94 | The loop writes one object per cause that is not nil, in order |
| ErrorEncoding.ElemPool.NewErrArrayElem | logger/encoder/error.go:105-109 | A holder that was in the pool or is new now holds the error and is not in the pool |
| ErrorEncoding.ElemPool.Free | logger/encoder/error.go:119-122 | The holder is emptied and pooled |
| EncoderLimits.CallerBreaksEntry | logger/encoder/json_encoder.go:349-358 | With MyCallerEncode no entry that has a caller is a JSON text |
| EncoderLimits.TimeFieldBreaksContext | logger/logger.go:132-136 | With the console time format a context that holds a time field is no JSON text, whatever else it holds |
| EncoderLimits.TimesSplit | logger/logger.go:132-136 | With the console time format an array of times parses, to three strings for each time, so it is the array meant only if it is empty |
| EncoderLimits.NamespaceInArray | logger/encoder/json_encoder.go:192-198 | An object in an array that opens a namespace: the document does not parse |
| EncoderLimits.NamespaceSwallows | logger/encoder/json_encoder.go:192-198 | An object under a key that opens a namespace: the next field ends up inside it |
| LogProxySafety.InvNext | logger/logproxy/log_proxy_writer.go:51-141 | Every atomic step of every call and of the consumer keeps ownership, capacities, delivery, verdicts and recycling order |
| LogProxySafety.UniqueOwner | logger/logproxy/log_proxy_buffer.go:54-77 | In every reachable state a buffer is in at most one cache slot, queue position, call or place in the consumer |
| LogProxySafety.StaleLoadTransfers | logger/logproxy/log_proxy_buffer.go:59-64 | A compare-and-swap that succeeds after any delay gives sole ownership of a buffer with room for the message |
| LogProxySafety.Conservation | logger/logproxy/log_proxy_writer.go:51-141 | Sink bytes, then the consumer's, then the queued buffers' equal the accepted messages in order, in every state of every run |
| LogProxySafety.ExactVerdict | logger/logproxy/log_proxy_writer.go:51-74 | A call has succeeded exactly when it was enqueued, once, and buffers ready to be sent hold exactly the message |
| LogProxySafety.VerdictFinal | logger/logproxy/log_proxy_writer.go:68-73 | A call that timed out is never enqueued later, a verdict never changes |
| LogProxyVerdicts.FailureExact | logger/logproxy/log_proxy_writer.go:56-73 | In every run, a call that failed had met a full channel and was timed out later, while it waited |
| LogProxyVerdicts.FailsByTimeOut | logger/logproxy/log_proxy_writer.go:62-73 | No step but its own time-out, while it waits, makes a call fail |
| LogProxyVerdicts.TimeOutFails | logger/logproxy/log_proxy_writer.go:68-73 | The time-out of a waiting call ends it with an error and changes nothing else |
| LogProxyVerdicts.SecondChance | logger/logproxy/log_proxy_writer.go:62-67 | A call that met a full channel is accepted, with exactly its message, if there is room at its next turn, whatever the others did in between |
| LogProxyVerdicts.ReceiveMakesRoom | logger/logproxy/log_proxy_writer.go:56-67 | One receive by the consumer between the two attempts is enough |
| LogProxySafety.OfferedOnce | logger/logproxy/log_proxy_writer.go:103-137 | Dequeued buffers are handed back once, in order; those not yet handed back are the at most two that the consumer holds |
| LogProxyWrites.HandedBackExact | logger/logproxy/log_proxy_writer.go:97-139 | The messages of the buffers handed back so far are exactly what is in the sink and in the scratch buffer: no buffer goes back before its bytes were written or copied |
| LogProxySafety.Capacities | logger/logproxy/log_proxy_buffer.go:31-71 | Cached buffers have capacity 256, a buffer given to a call has room for its message, no buffer overflows, the channel holds at most 2048 buffers, and the scratch buffer is never filled beyond 4096 bytes |
| LogProxyOwnership.KeepsTake | logger/logproxy/log_proxy_buffer.go:61-63 | Moving a buffer from a slot to a call keeps one owner per buffer |
| LogProxyOwnership.KeepsPut | logger/logproxy/log_proxy_buffer.go:72-76 | Moving the consumer's first buffer into an empty slot keeps one owner per buffer |
| LogProxyCache.TakesFirst | logger/logproxy/log_proxy_buffer.go:54-64 | A call that nobody disturbs takes the buffer of the first full slot and empties it, in as many steps as slots are looked at |
| LogProxyCache.TakesNew | logger/logproxy/log_proxy_buffer.go:54-66 | If all slots are empty it gets a new buffer of the default capacity |
| LogProxyCache.TakesLong | logger/logproxy/log_proxy_buffer.go:54-57 | A long message gets a new buffer of its own length, and the cache is left alone |
| LogProxyCache.PutsFirst | logger/logproxy/log_proxy_buffer.go:68-76 | A buffer of the default capacity that is handed back goes into the first empty slot |
| LogProxyCache.PutsNothing | logger/logproxy/log_proxy_buffer.go:68-77 | It is dropped if all slots are full, and one of another capacity always is |
| LogProxyWrites.WholeNext | logger/logproxy/log_proxy_writer.go:76-141 | Every step keeps: what is written is groups of whole messages, what is joined in the scratch buffer continues them, and what the consumer holds comes next |
| LogProxyWrites.WholeMessages | logger/logproxy/log_proxy_writer.go:97-139 | In every reachable state each sink write is exactly the accepted messages of its group, joined; groups follow one another, skip only empty messages, and a write longer than 4096 bytes is one message |
| LogProxyWrites.NothingLeft | logger/logproxy/log_proxy_writer.go:120-139 | When the consumer waits on an empty channel, only empty messages are in no group |
| LogProxyPass.PassExact | logger/logproxy/log_proxy_writer.go:76-141 | In every run, every pass from a blocking receive to the next dequeues the next accepted messages, ends at the receive that ends the functional loop for them, and makes exactly the writes of that loop |
| LogProxyPass.PassWrites | logger/logproxy/log_proxy_writer.go:120-139 | At any time in a run, the latest pass has made at most two writes |
| LogProxyPass.PassEnds | logger/logproxy/log_proxy_writer.go:88-119 | If no message is empty, no pass of any run makes more than 4097 receives |
| LogProxyStall.EmptyStalls | logger/logproxy/log_proxy_writer.go:88-119 | For every n there is a run in which one pass has made n turns, on empty messages, and goes on |
| LogProxyProgress.Drains | logger/logproxy/log_proxy_writer.go:76-147 | From every reachable state the consumer alone comes to rest after finitely many turns; the sink then holds all accepted messages in order, each whole in one write |
| LogProxyProgress.WriteSucceeds | logger/logproxy/log_proxy_writer.go:51-66 | If the channel has room, a call that runs undisturbed from any point is accepted, and the last queued buffer holds exactly its message |
| LogEndToEnd.EntriesAreLines | logger/logproxy/log_proxy_writer.go:51-147 | If the messages are encoded entries, the log ends with one line for each, in order, and a line denotes what its entry meant exactly when callbacks and context are ones the encoder is exact for |
| LogBatch.RunningExact | logger/logproxy/log_proxy_writer.go:88-119 | With the loop's own guards, turn by turn: it is still running after n turns exactly when none of receives 1 to n found nothing or took the lengths past 4096, and then it has joined all messages but a first one that is alone |
| LogBatch.StopsIff | logger/logproxy/log_proxy_writer.go:88-119 | The loop, run turn by turn, stops at some turn exactly when some receive finds nothing or takes the lengths past 4096, and then with the first such receive |
| LogBatch.NonEmptyStops | logger/logproxy/log_proxy_writer.go:88-119 | With messages that are not empty the loop no longer runs after 4096 turns even if every receive succeeds |
| LogBatch.EmptyNeverStops | logger/logproxy/log_proxy_writer.go:88-119 | With empty messages for ever the loop is still running after any number of turns |
| LogBatch.WritesExact | logger/logproxy/log_proxy_writer.go:83-140 | The writes behind the loop are at most two, and their concatenation is the dequeued messages in order |
| LogBatch.LongWriteIsOneMessage | logger/logproxy/log_proxy_writer.go:97-111 | Every write is a run of whole messages, and one longer than 4096 bytes is a single message |
| LogBatch.FeedResult | logger/logproxy/log_proxy_writer.go:88-119 | With producers at work in front of each receive, the loop and its channel end as the loop over what the receives see |
| LogBatch.AcceptAllExact | logger/logproxy/log_proxy_writer.go:56-73 | Calls one after the other append their messages to the channel, in order, until it is full |
| LogBatch.RunConserves | logger/logproxy/log_proxy_writer.go:51-141 | What a run dequeues, and then what it leaves queued, is what was queued and then what the producers got in; and so are the bytes written and left |
| LogBuffers.BufferWrap.Copy | logger/logproxy/log_proxy_buffer.go:31-38 | The contents become the source, cut to the capacity |
| LogBuffers.LogBufferCache.GetBuffer | logger/logproxy/log_proxy_buffer.go:54-66 | The first full slot is emptied and its buffer returned, or a new buffer; it always has room |
| LogBuffers.LogBufferCache.PutBuffer | logger/logproxy/log_proxy_buffer.go:68-77 | A buffer of default capacity goes into the first empty slot; otherwise nothing changes |
| LogBuffers.PutApart | logger/logproxy/log_proxy_buffer.go:68-77 | Handing back a buffer keeps cached buffers and those in use different memory |
| LogWriter.Writer.Take | logger/logproxy/log_proxy_writer.go:51-54 | The buffer a call gets shares nothing with any cached or queued buffer, nor with those of the consumer |
| LogWriter.Writer.Write | logger/logproxy/log_proxy_writer.go:51-74 | If the channel has room the message becomes the last one queued, whole, and its length is the result; otherwise the result is an error and the queue stays; what was queued and what the consumer holds stays in both cases |
| LogWriter.Writer.Round | logger/logproxy/log_proxy_writer.go:97-118 | The guards and copies of a turn on the real scratch array do what the functional turn does |
| LogWriter.Writer.Laps | logger/logproxy/log_proxy_writer.go:88-119 | The loop follows the functional loop turn by turn, while producers take, fill and queue recycled buffers |
| LogWriter.Writer.Flush | logger/logproxy/log_proxy_writer.go:120-139 | What is pending is written in order and handed back |
| LogWriter.Writer.WriteLog | logger/logproxy/log_proxy_writer.go:76-141 | One run with producers at work makes the writes of the functional loop; the bytes written, then those left in the channel, are those queued before and then those that arrived; the buffers received are handed back, in order |
| LogWriter.Writer.ProcessOne | logger/logproxy/log_proxy_writer.go:143-147 | With no producer at work a prefix of the channel goes to the sink in order, in at most two writes, each of whole messages and a long one of a single message; the rest stays queued |
| PatchLog.JumpRoundTrip | hotfix/replace.h:28-33 | The 12 bytes of a jump decode to the 64-bit target |
| PatchLog.JumpBytes | hotfix/replace.h:28-33 | The opcode bytes at both ends, and the target as eight bytes in between, the lowest first |
| PatchLog.MaskAligns | hotfix/replace.h:36-36 | Masking a 64-bit address rounds it down to its page |
| PatchLog.PagesCoverWindow | hotfix/replace.h:36-38 | The page base and the page count cover the window for every address, and when the count is exactly the pages touched |
| PatchLog.RestoreExact | hotfix/replace.h:226-233 | What restoring leaves at each byte, for saved and unsaved patches on windows that repeat or overlap |
| PatchLog.RestoreUndoesAll | hotfix/replace.h:226-233 | If every patch was saved, restoring gives the initial memory byte for byte |
| PatchLog.CleanSlateExact | hotfix/replace.h:225-233 | Restoring gives the initial memory if and only if, at every byte, the last patch over it before the first saved one wrote the initial byte, or there is none |
| PatchLog.NoCleanSlate | hotfix/replace.h:225-240 | After one unsaved patch between two different functions on a page of zeroes restoring does not give it back |
| PatchLog.LastCoverExact | hotfix/replace.h:49-50 | No patch behind the one that counts as the last over a byte covers it, and none at all does if there is no such patch |
| PatchLog.MemoryAt | hotfix/replace.h:49-50 | A byte of memory is what the last patch over it wrote, or the initial byte |
| PatchLog.RestoreKeepsUnsaved | hotfix/replace.h:226-233 | If unsaved windows keep clear of saved ones, restoring leaves the initial memory overlaid with exactly the unsaved patches |
| PatchLog.UnsavedSurvives | hotfix/replace.h:225-240 | An unsaved patch that nothing overlaps is still in force after restoring |
| PatchLog.LastPatchWins | hotfix/replace.h:49-50 | An entry point decodes to the target of its last patch, if later windows keep clear of it |
| PatchLog.Untouched | hotfix/replace.h:49-50 | Bytes outside all windows never change |
| HotPatch.Process.Unprotect | hotfix/replace.h:36-38 | mprotect succeeds, and the pages that become writable are exactly those that the window touches |
| HotPatch.Process.SaveOld | hotfix/replace.h:40-47 | The old bytes and the address are appended to the list, with the index in range |
| HotPatch.Process.BuildJmpDirective | hotfix/replace.h:25-51 | Memory changes in the window only, the list grows by the saved bytes, and exactly the pages of the window become writable |
| HotPatch.Process.Replace | hotfix/replace.h:55-79 | The codes in their order, one saved patch on success, nothing on failure; the count stays within 100 |
| HotPatch.Process.ReplacePatchFuncNew | hotfix/replace.h:133-149 | The codes in their order, one unsaved patch on success |
| HotPatch.Process.ReplacePatchFuncWithAddr | hotfix/replace.h:157-198 | The codes in their order, one unsaved patch on success |
| HotPatch.Process.PutBack | hotfix/replace.h:229-233 | The reverse loop writes writable pages only, and gives the functional restore of the list |
| HotPatch.Process.Restore | hotfix/replace.h:226-240 | Memory is what the whole history of patches says, the initial memory exactly under the condition of CleanSlateExact; the list is empty |

## Left out

- LogWriter.Writer.Write: the consumer does not run while the call waits, so the second stage of the send ends in the timeout; LogProxy has a send that succeeds while waiting.
- LogWriter.Writer.WriteLog: producers run at the receives, a whole Write at a time, and a run is one that ends; LogProxy has every interleaving, with copies atomic, which unique ownership justifies.
- EncoderPool.Pools.PutEncoder: the scratch buffer that reflection uses inside an encoder, and its release, are not modelled; only the text that comes out of it is.
- The 200 ms timer is an action that may happen whenever a call waits; timer pools and real time are not modelled.
- Errors and panics of the sink, recover, and the messages to stderr: the sink is a recorded sequence of writes; a returned error changes no control flow.
- zap's Field.AddTo and the marshallers behind it are not part of this repository: a field is the calls it makes.
- The texts of numbers, complex numbers, base64 and encoding/json: complete compact JSON texts, or strings for NaN, infinities and complex numbers.
- Callbacks are present and depend only on their argument; only the name callback may be missing, as in the code.
- The reader rejects unpaired surrogate escapes; the encoder never writes one.
- The console entry's prefix, colours and level names: presentation, with the message unescaped by design.
- dlopen, dlsym, dlclose, /proc/self/maps, strtoul and names: function addresses, and whether a name or base was found, are inputs. A window is mapped memory below 2^47.
- Pages stay writable after restore, as in the code, and the instruction cache is not modelled.
- gen, ecode, proto, utils, apps, timerpool and the wiring in logger/logger.go, whose JSON core uses zap's own encoder.
