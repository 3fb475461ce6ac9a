# A verified model of the iorpc engine

iorpc sends requests over a few long-lived connections. Calls meet in a bounded queue, a writer per
connection numbers and batches them, a reader completes them, and a server runs handlers in any order
under a shared semaphore. This project models that engine and proves what it is for: every answer reaches
the call that asked, exactly once, whatever the schedule; and it says exactly where the code does less than
its comments promise.

The parts, joined as said in each:

* **Wire codec** (`Wire`, `Encoders`, `Decoders`, `Batching`, `Headers`). `Wire` says what a message is in
  bytes and what reading bytes gives. `Encoders.MessageEncoder` and `Decoders.MessageDecoder` are classes with
  the source's fields; the encoder's buffer is a slice over a shared array (`GoSlice`), so the start line
  really is written through an alias that may point to an array the buffer has left.
* **Ring buffer** (`Rings`). The class over a slice, proved against a byte queue, with the write that
  panics.
* **Connection protocol** (`MessageIds`, `ServerSide`, `Connection`, `ConnectionInv`, `Matching`, `Protocol`,
  `Progress`, `LostLines`). A state machine of one client connection: writer, reader, teardown, two byte links
  with the encoders' held back bytes and array capacities, and the server half. Each channel operation, locked
  section and atomic addition is one step. The links carry bytes: messages exist on the other side only after
  decoding, and a header that outgrows the array takes its start line with it. `WriterLoops` has the bodies of
  the two writer loops as classes on the real encoder, and shows that each turn is a run of the protocol.
* **Client engine** (`Client`, `ClientInv`, `ClientSteps`, `EngineSteps`, `ClientRuns`, `ClientTheorems`,
  `Causes`, `Spacious`, `Cancels`, `Unsent`, `BatchStrikes`, `StaleCancel`, `Batches`). Any number of callers and
  connections over a heap of pooled result objects with explicit owners, a bounded queue that evicts its oldest entry,
  and the pending counter. `Batches` has
  `callAsync`, the retry loop and `Batch` as classes, run between whatever other goroutines do.
* **Server engine** (`ServerEngine`, `ServerSteps`, `ServerRuns`, `ServerProgress`). Pooled messages, shared
  tokens, bounded response channels, the reused response record. Each of its steps is a step of `ServerSide`
  on the values the messages hold. `Joined` puts it behind a client connection and shows that every run of the
  two is a run of the protocol.

**Start lines.** The encoder asks for an array of 4096 bytes and flushes from 4096 bytes on, so a header of any
length can outgrow the array behind its placeholder, whose bytes then stay zero (encoding.go:132-145). The
theorems about the protocol and the client therefore have the hypothesis that no start line was lost so far
(`Connection.Intact`, `ClientInv.AllIntact`). `LostLines` says at which encode it becomes false (exactly when the
header does not fit), what a caller or operator can do so that it never does (no header bytes, or arrays of 4124
bytes plus the longest header; `Spacious` for a whole client), and gives runs that break without it: a request
that stays pending for ever, and a response that makes the client give up its connection.

Integers are unbounded unless wrap-around is written out: IDs, counters and sizes are reduced modulo 2^64 or
2^32 where the source's types do. The contents of header structs are an abstract type; a registry gives each
type's `Encode` and `Decode` as arbitrary functions. The handler is an arbitrary relation between requests and
outcomes, panics included. Timers, the network's chunking and the scheduler are nondeterministic.

Where the comments and the code differ, the model follows the code:

* client.go:525-526 and 540-541 guarantee that all `Done` channels are unblocked when `CallTimeout` returns.
  When a submission fails the method returns at client.go:551-554 and closes none
  (`Batches.Batch.CallTimeout`, with the exact condition for a client left alone).
* client.go:321-322 calls repeated and concurrent `Cancel` safe. A batch that times out cancels the results of
  its one-way operations too (client.go:574-575). The writer may have recycled those, and a recycled object keeps
  its canceled flag (client.go:252-262). `BatchStrikes.OwnersOnlyExactlyWithoutBatchCancels` says when calls end as
  cancelled that nobody cancelled; a batch cannot do this if no one-way operation comes at or after the one at
  which its timer fires (`Batches.Batch.CallTimeout`).
* A response with both an error and headers is written in one order (encoding.go:180-205) and read in the other
  (encoding.go:335-356): `Wire.ResponseRoundTripWhen` says when it survives. The server never sends one.
* A header that outgrows the buffer's array loses its start line (encoding.go:132-145), as said above.

## Model

| member | source | states |
|---|---|---|
| Rings.RingBuffer.Write | buffer.go:150-169 | the queue grows by exactly the bytes given, moving to storage of exactly the new size when they exceed the capacity; the call panics exactly when they fit the capacity but the queue already wraps |
| Rings.RingBuffer.Read | buffer.go:103-123 | takes the oldest bytes off the queue, through the wrap; end of file exactly on the empty ring |
| Rings.RingBuffer.TrySlice | buffer.go:125-148 | takes the oldest bytes, as a window onto the ring's own storage or a copy, leaving every stored byte unchanged; divides by zero exactly when the ring has no storage |
| Rings.RingBuffer.Reset | buffer.go:80-82 | empties the queue, keeps the storage |
| Rings.Staging | buffer.go:150-169 | writing a header in chunks to an empty ring succeeds if and only if no chunk lands, within the capacity, on contents that already wrap; then the ring holds exactly the header |
| Rings.StagingSuffices | encoding.go:302-313 | one write, or any chunks that end before the storage does, are always staged |
| Rings.StagingCanFail | buffer.go:164 | three bytes and then two more into a ring of capacity 8 starting at 6: the same bytes go through in one write and panic in two |
| Rings.EqualHeadersNeverWrap | encoding.go:302-313 | from a new ring, any run of headers of one size dividing the capacity is staged, however each is cut |
| Rings.WholeHeadersNeverFail | encoding.go:302-313 | any run of headers that each arrive whole is staged, whatever their sizes |
| GoSlice.Append | encoding.go:132-137 | writes through the shared array while the capacity lasts, leaves it unchanged and moves on when not |
| Headers.RegisterNumbersTheType | encoding.go:25-29 | afterwards the type has a number other than 0 under which its own constructor stands, and no other type's number or constructor has changed |
| Headers.RegisterKeepsValid | encoding.go:25-29 | registering, also a type that was registered before, keeps numbers and constructors in agreement |
| Headers.IndexNamesTheType | encoding.go:31-44 | the number written makes the other side construct a value of the same type; 0 exactly for unregistered types |
| Bytes.BigEndianDigits | encoding.go:142-148 | byte i of a field of w bytes is the digit of weight 256^(w-1-i): the most significant one comes first |
| Wire.RequestLayout | encoding.go:46-50 | bytes 0 to 3 of a request are its service, 4 to 7 and 8 to 11 the header's type and size, 12 to 19 the ID, 20 to 27 the body's size, each big-endian; then the writes of the header's `Encode` |
| Wire.ResponseLayout | encoding.go:52-56 | the same for a response, with the error's size first and the error text behind the header |
| Wire.FirstRequest | encoding.go:126-149 | request 1 to service 1 byte by byte |
| Wire.AnyBytesAsRequest | encoding.go:290-322 | any bytes whose first 28 hold given fields: when reading them waits for more, fails on the header, panics or succeeds, and then with which service, ID, header, body and rest |
| Wire.AnyBytesAsResponse | encoding.go:324-365 | the same for a response, whose error text is read first |
| Wire.RequestRoundTrip | encoding.go:126-170 | decoding the bytes of a request, whatever follows, gives the request and leaves what follows |
| Wire.ResponseRoundTrip | encoding.go:324-365 | the same for a response without both an error and header bytes |
| Wire.ResponseRoundTripWhen | encoding.go:180-205 | for any response: the round trip holds if and only if the swapped order of error and headers is harmless |
| Wire.ErrorAfterHeadersIsLost | encoding.go:335-356 | every response whose header bytes and error text begin with different bytes is lost |
| Wire.RequestStreamRoundTrip | encoding.go:290-322 | decoding a concatenation of encodings returns the list of requests and consumes exactly all bytes |
| Wire.ResponseStreamRoundTrip | encoding.go:324-365 | the same for responses |
| Wire.DecodeRequestExtends | encoding.go:290-322 | bytes that arrive later never change a request already decoded |
| Wire.DecodeResponseExtends | encoding.go:324-365 | bytes that arrive later never change a response already decoded |
| Encoders.MessageEncoder.Flush | encoding.go:82-95 | succeeds exactly if the connection takes what is held back, which then has left in one write and is counted; the buffer is empty afterwards, also on failure |
| Encoders.MessageEncoder.FillHole | encoding.go:139-145 | the start line lands before the header with earlier bytes untouched if the slice still shares the buffer's array, and is lost otherwise |
| Encoders.MessageEncoder.EncodeRequestHeaders | encoding.go:126-149 | the buffer ends as its old contents, start line and header; with zeros for the start line exactly when old length, placeholder and header exceed the array the placeholder was written to, which is the old one if the placeholder fitted it |
| Encoders.MessageEncoder.EncodeResponseHeaders | encoding.go:172-207 | the same with the error text after the header |
| Encoders.MessageEncoder.EncodeRequest | encoding.go:151-170 | succeeds exactly if the header's `Encode` does not fail, the body is as long as announced and the connection takes what is due; counts one call or one error; a success is one `Push` of this message with the head it got, counted from an empty buffer when a body makes it flush first; a failure leaves on the wire a prefix of what was due, so no byte overtakes an earlier one |
| Encoders.MessageEncoder.EncodeResponse | encoding.go:209-228 | the same for a response |
| Encoders.MessageEncoder.EncodeBody | encoding.go:97-120 | a body leaves right behind everything held back, counted; failure exactly if it is shorter than announced or the connection does not take both |
| Encoders.CarriedGoes | encoding.go:97-170 | a message the codec carries fails only with the connection: exactly if there is a body or 4096 bytes are reached, and what is held back, the head and the body are more than it takes |
| Batching.BatchingIsTransparent | encoding.go:82-170 | for any sequence of encodes and flushes, bytes sent followed by bytes held back are the concatenation of the messages in order, and what was sent is never taken back |
| Batching.CountersFollow | encoding.go:88-120 | over any such sequence the counters are the head and body bytes of the messages, behind by exactly what is held back |
| Batching.EndToEndAccounting | encoding.go:262-365 | for any mix of encodes and flushes, of requests or of responses, the reader of the whole stream counts what the writer counts, head bytes behind by those held back, and together all there were |
| Batching.LostLineReads | encoding.go:290-365 | what either side makes of a message that lost its start line: an empty one numbered 0, and the rest of its head read as the next message |
| Batching.IntactExactlyWhenItFits | encoding.go:132-149 | a request arrives intact if and only if buffer length, placeholder and header fit the buffer's capacity, or where the placeholder outgrew that, the capacity it got |
| Batching.IntactResponseExactlyWhenItFits | encoding.go:179-206 | the same for a response |
| Batching.LeavesAt4096 | encoding.go:163-167 | messages without bodies leave exactly when they reach 4096 bytes together; no mix of messages and flushes holds back as many |
| Batching.FiftyThirdIsLost | encoding.go:126-149 | 52 messages with headers of 50 bytes and no bodies are held back together, and the 53rd loses its start line in an array of 4096 bytes |
| Decoders.MessageDecoder.DecodeRequest | encoding.go:290-322 | ends exactly as reading the arriving bytes says, consuming exactly the message and counting it; or the staging panics, exactly if writing the chunks in which the header arrives to the ring does, for which it must arrive in pieces and run past the end of the storage; on success the ring is as that one header has left it |
| Decoders.MessageDecoder.DecodeResponse | encoding.go:324-365 | the same for a response; without an error text the record's old one stays |
| Decoders.MessageDecoder.Stage | encoding.go:302-313 | the header's bytes come off the ring unchanged; the panic happens exactly if writing the arriving chunks fails, never for a header that arrives in one read or ends before the storage does; the ring's new start |
| MessageIds.Allocate | client.go:804-816 | the probe loop stops after at most one step per pending entry at the first free ID |
| MessageIds.Pigeonhole | client.go:810-815 | a full cycle of taken IDs needs as many entries |
| MessageIds.ZeroExactlyAfterTheLast | client.go:804-815 | the allocated ID is 0 if and only if every ID from the start of the search to 2^64-1 is taken and 0 is free |
| MessageIds.SequentialBeforeWrap | client.go:763-816 | before the first wrap the next ID is the last one plus one |
| Matching.DeliveredIsTold | server.go:430-444 | a delivered response tells how a run of the handler on that very request ended: what it returned and no error, or its error text or the report of its panic and nothing else |
| Matching.ToldIsDelivered | server.go:366-444 | and every response that tells this is one the server delivers |
| ServerSide.RepliesAreOk | server.go:430-444 | whatever way a handler ends, its response is one the codec carries |
| ServerSide.StepKeepsInv | server.go:366-502 | every step of reader, workers and writer keeps all responses on their way fit for the encoder |
| ConnectionInv.DecodeKeepsLinks | client.go:858-863 | what the reader decodes is the oldest message on the link, and the rest of the bytes are the rest of the messages |
| Matching.RemoveMatches | client.go:865-875 | the ID of a decoded response is pending, nothing else carries it, and the entry found is the call it answers |
| Matching.PublishMatches | client.go:804-823 | publishing a request gives it an ID nothing in flight carries |
| Protocol.StepKeepsInv | client.go:753-898 | every step of every goroutine on both sides, short of losing a start line, keeps the invariant of the connection |
| Protocol.EndToEnd | client.go:865-898 | in every interleaving in which every header fitted: no malformed message, no unexpected ID, every ID in flight pending and in one place, what either side reads next incomplete or a message it waits for, every looked-up answer telling how the handler's run on that request ended, bytes held back always due for a flush, at most 10 times the limit plus 2 entries pending |
| Progress.NeverStuck | server.go:366-502 | while nothing has failed and a waiting request is pending, some goroutine can take a step that is not an idle flush and carries a message further |
| Progress.AdvancesEnd | client.go:753-898 | every such step uses up work, so only finitely many follow one another without a new request |
| Progress.RestMeansAnswered | client.go:865-898 | a healthy connection that can take no such step has nothing pending but possibly ID 0: all waiting requests were answered |
| LostLines.RequestIntactExactlyWhenItFits | encoding.go:126-170 | at any encode of an intact connection the bytes stay those of its requests if and only if the header fits |
| LostLines.ResponseIntactExactlyWhenItFits | encoding.go:172-228 | the same for the server's responses |
| LostLines.SpaciousStaysIntact | encoding.go:230-236 | without header bytes, or with arrays of the flush threshold plus a start line plus the longest header, no run ever loses a start line |
| LostLines.StrandedRequest | client.go:801-840 | a run of a fresh connection after which a request is pending and in flight nowhere, though nothing failed |
| LostLines.UnexpectedReply | client.go:865-875 | a run in which the client meets an ID it does not wait for |
| Protocol.IdsAreSequential | client.go:763-816 | the n-th waiting request of a connection has ID n, pending IDs lie between 1 and the last |
| WriterLoops.ClientWriter.Turn | client.go:764-840 | one turn of the writer's loop, on the real encoder with any capacity, is a run of protocol steps with the same map, ID, capacity, sent and held-back bytes, adding one to the counter exactly for a request it publishes; the writer stays alive exactly if the call was cancelled, or the request goes out and a waiting one found at most ten times the limit pending; a cancelled call leaves no trace on the wire |
| WriterLoops.ClientWriter.FlushTurn | client.go:778-784 | succeeds exactly if the connection takes what is held back; the flush channel is disarmed only after everything held back has left |
| WriterLoops.ServerWriter.Turn | server.go:476-502 | one turn sends exactly the message's own response in spite of the reused record, the writer stays alive exactly if that response goes out, and the message is clean when it returns to the pool |
| ClientRuns.NoAccessToRecycled | client.go:242-262 | at every step but a batch's cancel of a one-way result the acting goroutine owns the object it touches, and the object still serves the call it is taken for |
| ClientRuns.StepKeepsInv | client.go:359-413 | every step of callers, batches, connections and teardowns keeps linear ownership, the queue, the answers, the counter and every connection's protocol |
| ClientRuns.ReadsAreFaithful | client.go:829-834 | what a writer reads from an object, also after publishing it, is the request the object was queued with |
| ClientTheorems.ExactlyOnce | client.go:721-750 | in every interleaving no channel is closed twice, and when a connection is over every waiting call its writer had taken is completed |
| ClientTheorems.PoolSafety | client.go:229-236 | no goroutine, but for a batch's cancel of a one-way result, touches an object that is in the pool or serves another call by then |
| ClientTheorems.AnswersMatch | client.go:879-898 | a completed call finds its own outcome, and an answer shows its caller how the handler's run on its own request ended: the response and no error, or a server error with the handler's text; only an empty text passes for success |
| Causes.OutcomesHaveCauses | client.go:721-750 | in every run an overflow means that no connection ever took the call, a cancellation that the connection that took it dropped it, an answer that its reader completed it, and the end of a connection that this connection had taken the call, with the same error for all of its calls |
| Causes.CompletionClosesOnce | client.go:721-750 | a step that gives a call its outcome finds the call's channel open and leaves it closed, and no other step closes one |
| Unsent.CanceledIsNotSent | client.go:315-326 | a request that is published or loaded belongs to a call that its caller has neither cancelled nor given up on by then |
| ClientTheorems.Accounting | client.go:182-185 | the counter is the sum over connections of pending entries up to the windows between a map's change and the addition, modulo 2^32; while the sum is below 2^32 it is that sum, and positive at every decrement |
| ClientTheorems.QueueInOrder | client.go:376-412 | the queue keeps its capacity and the order of acceptance, holds each accepted call at most once and a rejected one never |
| ClientTheorems.WaitingCallIsAccepted | client.go:376-405 | left alone, a waiting call gets into a full queue for exactly the oldest entry, which is told or recycled |
| ClientTheorems.AloneAsTheMethod | client.go:359-413 | left alone, the steps of any call end as the contract of the method `Batches.Client.CallAsync` says |
| Spacious.ModestStaysIntact | encoding.go:230-236 | a client whose callers and handlers keep to headers its encoders have room for never loses a start line |
| Cancels.CanceledOnlyByOwner | client.go:791-799 | in every run without a batch that cancels one-way results, a call ends as cancelled only if its own caller cancelled it or gave up on it before, and no pooled object carries the flag |
| BatchStrikes.FlagNeverClears | client.go:252-262 | no step ever clears an object's canceled flag, neither its release nor its next use |
| BatchStrikes.CancelStrikes | client.go:569-580 | a batch that cancels a one-way result still queued, in a writer's hand or in the pool makes possible that a call ends as cancelled whose caller never cancelled it |
| BatchStrikes.OwnersOnlyExactlyWithoutBatchCancels | client.go:569-580 | from any state reached without such cancels owners alone cancel in every continuation without them, and do not in some continuation that begins with one |
| StaleCancel.StaleCancelHitsAnotherCall | client.go:569-580 | a reachable state in which a one-way call's object already serves another call, and the batch's cancel makes that call end as cancelled |
| Batches.Client.CallAsync | client.go:359-413 | alone: accepted exactly if there is room or the call waits, the oldest entry pays; disturbed before and after the eviction: accepted as the queue's last entry, or rejected without a trace because the queue is full again, other callers' results untouched |
| Batches.Client.CallAsyncRetry | client.go:591-607 | at most retries plus one attempts, failure only by overflow and only after the last; a waiting result is new and carries its request |
| Batches.Batch.Submit | client.go:548-556 | a call of its own for every operation, or a failure after six attempts at one; alone, the operations' requests enter the queue in order, and a failure happens exactly when a one-way operation finds the queue full |
| Batches.Batch.CallTimeout | client.go:542-589 | a failed submission closes nothing; otherwise every waiting operation is closed exactly once, those before the timeout with their own call's final result, all later ones with the timeout error and their calls cancelled; it stops at a waiting operation only if the timer fired there or its result had not come; on an idle client a batch whose results come in time returns no error and gives every operation its answer; no other object is cancelled unless a one-way operation comes at or after the timeout |
| ServerSteps.SideGood | server.go:344-502 | every step of a connection's reader, workers and writer is one step, or none, of the server on values, and keeps every message with one owner |
| ServerRuns.StepRefines | server.go:344-502 | the refinement across all connections: the acting one takes that step, the others none |
| ServerRuns.CodecPrecondition | server.go:484-500 | in every run each response handed to the encoder has no error or else nil headers and an empty body, panics and the reused record included |
| ServerRuns.PoolSafety | server.go:366-405 | a message in use belongs to one place of one connection; one taken from the pool is referred to from nowhere |
| ServerRuns.PooledIsClean | server.go:395-405 | a message in the pool holds no request, no response and no error |
| ServerRuns.Semaphore | server.go:380-428 | tokens out are the live workers and the readers about to start one, never more than `Concurrency`; every token taken starts one worker, every worker that is gone has returned one |
| ServerProgress.BlockedWorkerIsFreed | server.go:300-314 | a worker before a full channel: three steps of the living writer make room, and without a writer the stop is signalled or can be |
| ServerProgress.InternalStepsEnd | server.go:366-502 | every step the server takes by itself uses up work, so the server comes to rest |
| ServerProgress.StuckMeansDone | server.go:380-502 | and rests only when every request has been handled, every response sent or its writer gone, and no token is out |
| Joined.StepLifts | server.go:344-502 | each step of a client connection and the server's engine together is a step of the protocol or one it does not see |
| Joined.EndToEnd | client.go:865-898 | end-to-end matching for a connection served by the engine with its pool, tokens and bounded channel |

## Left out

- The two engines are state machines on values rather than classes, because their content is the interleaving:
  a step is one channel operation, locked section or atomic addition. The bodies of both writer loops, the ID
  loop, `callAsync`, the retry loop, the batch, codec and ring are imperative. Bodies of the reader loops and of
  `serveRequest` exist only as steps.
- A body is a byte sequence of its size. `Offset`, the splice and pipe paths, `CloseBody` and closing bodies are
  not modelled, nor a body reader that blocks or fails midway other than by ending early.
- Dialing, listening, keepalive, `OnConnect`, the handshake byte, logging, statistics other than those of the encoder
  and decoder (bytes, calls, errors), and the dispatcher.
- The network: the places where the stream arrives in pieces are given beforehand, and a connection takes a given
  number of bytes before it fails.
- Time: a timer may fire whenever it is armed. `runtime.Gosched` and the doubled selects add nothing to a
  nondeterministic choice.
- `sync.Pool` is a set from which any object or a new one is taken.
- Connection: how much an array grows is not the repository's code; it may grow to any sufficient capacity. A
  staging panic in the decoder appears as a reader that fails.
- Client: once a start line has been lost the other side may answer IDs at random, and the model follows the
  code only up to there; nothing is claimed of later states.
- Connection: the server half always has a token and room in its channel; the bounds are in `ServerEngine`, and
  `Joined` has them behind a connection.
- Client: the error a connection ends with is the same for all its calls but otherwise free; that it is none exactly
  after `Stop` is not modelled.
- Client: the cancel test and the publishing that follows are one step each with the object read in between; the
  teardown's removal of an entry and its decrement are one step. `Response.Headers`, which `releaseAsyncResult`
  leaves behind, is kept in `Batches` only.
- Client: calls still in the queue when the client stops are not completed, and pending ones complete without an
  error, as in the source; nothing is claimed about them beyond exactly-once.
- Batches.Client.CallAsync: other goroutines act before and after the eviction and between calls, not between
  every two statements; every interleaving is covered by the `Client` machine.
- Batches.Batch.CallTimeout: the order of completion is a schedule given beforehand, and a result that never
  comes is one the timer overtakes.
- A header type whose `Encode` reports a size other than what it wrote is outside `Carried`, and what such a type
  does to the stream is not described.
- Progress.RestMeansAnswered: requests that keep coming can keep a connection from rest; fairness between them
  and the steps of older requests is not modelled.
- Stopping the whole client or server and starting it again.
