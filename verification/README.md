# Verified models of the mx-core library

A Dafny model of the parts of this C library in which something can go subtly wrong, and proofs of what they are
for. Nothing here calls the C code; every module states in its own terms what the cited functions do, branch by
branch, and proves it.

Most parts have two layers. A module on values (`CbaRing`, `DartProtocol`, `HsmTime`, ...) says what each function
does to the state, and its lemmas prove the properties over single steps and over whole runs. A class (`Cba`, `Dart`,
`Hsm`, ...) has the fields of the C struct and one method for each C function; its methods update fields, arrays and
links in place with the source's own loops, and are proved to do what the value layer says. So the properties of all
runs hold of the object too. The exception is `Dart`: its three message lists are one field of sequences, and its
pool is not a field but is joined to it in `DartMemory` and `DartPool`.

* **Allocator** (`CbaRing`, `CbaAllocator`, `CbaRuns`) - the circular buffer allocator. The value layer is a ring of
  chunks; the class keeps marker, bound flag and 12-bit length of every chunk in the bytes of the buffer. Proved: the
  chunks tile the occupied region in every reachable state, no operation touches another chunk's payload, malloc
  fails only when no gap is large enough, realloc keeps the contents, the freeing loop ends. The bound flags equal
  the chunks held, and a drained allocator is back in its initial state, if and only if no malloc wrapped over a
  newest chunk that had already been freed; a run where this happens is given. The headers keep all lengths if and
  only if the buffer has at most 4100 bytes.
* **Messages** (`MessageList`, `MessageQueue`, `SchedulerRuns`, `Scheduler`) - the linked list refines a sequence,
  the priority queue a sequence of sequences. List, allocator and scheduler compose: chunk order is message order,
  messages are delivered once each in posting order with the bytes that were sent, and draining the queue returns the
  allocator to empty, for any sends made during delivery.
* **DART link** (`Bits`, `Crc`, `CrcBursts`, `DartFrame`, `KnownFrames`, `DartProtocol`, `DartRuns`, `DartProgress`,
  `DartTiming`, `DartTimeouts`, `DartSends`, `DartResponses`, `DartStreams`, `DartParser`, `DartReading`, `DartLogs`,
  `DartPair`, `DartReceipts`, `DartStaleAck`, `DartReports`, `DartMemory`, `DartPool`, `DartPoolRun`, `DartLink`) -
  framing, CRC, queues, retries, pending request and timers. Received bytes, clock and time ticks, sends and changes
  of the RDY pin are the inputs; UART output and callbacks go to a log.
  - Over all runs: conservation and order of messages, the watchdog timers, bounded retries, truthful reports; and with
    RDY high a bound on the calls after which everything queued is finished.
  - What becomes of a send, which message goes next and which response finishes a request; when exactly a transfer is
    repeated, given up or abandoned, the other side woken up, and a quiet link closed and reported idle.
  - Over all runs of a fresh link, whatever bytes arrive and however late: what is delivered, answered, reported as a
    fault and left in the buffer is what a parser of the bytes and the times between them says. Damage within as many
    consecutive bits of data and check bytes as there are check bits is refused. The write index stays in the buffer.
  - Two links on one wire, each byte read in time: each hears exactly what the other transfers. At any moment the data
    certain to have been received are those of the first n transfers, n being the ACK bytes read. From this come the
    exact conditions for the reports TRANSFER_DONE and TRANSFER_COMPLETE to be true, and runs where they are not.
  - Played against the allocator, the link frees only chunks that are held and bound, every message that is queued or
    awaits its response keeps its bytes as they were sent, and the pool is recovered if and only if no malloc wrapped
    over the chunk of a freed message; a run where one did is given.
* **State machines** (`HsmEvents`, `HsmTime`, `HsmTimers`, `HsmObject`) - event dispatch for arbitrary handlers, what
  each handler call finds and leaves, which timer events a lapse delivers, and the batched timer: handling a lapse at
  once is the same as handling it in two parts, hence millisecond by millisecond, if and only if the split
  does not fall inside a jump, exactly on the overrun of the counter, with a timer enabled.
* **Timers** (`Timers`, `Clock`, `ProcessTimers`, `ProcessTimerList`) - what the wrapping clock says about the true
  time, the exactness of a timer across the wrap, and the process timers: a linked list whose handler ends although
  callbacks start timers, and fires each once per start and never early.
* **Trimmed mean** (`Avg`) - the streaming algorithm equals sorting all inputs and dropping the extremes.
* **Ring buffer** (`Ringbuf`) - one producer and one consumer, their memory accesses interleaved arbitrarily, form a
  queue; sizes that are not powers of two lose values.

Contexts the library leaves to its user are inputs of the model: an allocation that fails inside the link, the
deferred-message callback, the handlers of a state machine, the callbacks of process timers, the pins and the clock.

Where the code and its remarks differ, the model follows the code:

* source/timer.c:19 promises a fixed lag of 295 ms after the wrap. It is 296 ms less a whole second for some wraps
  (`ClockRuns.LagExact`, `ClockRuns.WrapOf`).
* source/cba.c:242-243 calls a chunk big enough only when it is larger than the request. Of the requests that a chunk
  has room for, one is refused if and only if it is of exactly the chunk's length and the chunk is not the newest;
  the newest chunk stays as it is (`CbaRing.SmallRequestRefusedIff`, `CbaRuns.SmallReallocIff`).
* include/mx/core/dart.h:76 has TRANSFER_DONE mean a successful transfer. An acknowledge carries no number, so after
  a repetition it may belong to an earlier frame. Whenever a message is reported done, for a request when its response
  is complete, its data have for certain been received if and only if they are among those of the first n transfers
  (`DartReceipts.DoneIffTransferred`, and `DartReceipts.SenderCanTell` in terms of counts the sender can keep);
  `DartStaleAck.StaleAcknowledge` is a run where they have not.
* include/mx/core/dart.h:78 has TRANSFER_COMPLETE mean that all messages were successfully transferred. All have for
  certain been received if and only if the first n transfers cover all that were made
  (`DartReports.CompleteIffTransferred`). The other reports do not tell: completion can come with every message
  reported done and one never received (`DartReports.CompleteWithoutReceipt`), with one reported abandoned and all
  received (`DartReports.AbandonedButReceived`), and after a reported failure (`DartReports.CompleteAfterFailure`).
* source/core/hsm.c:64-65 mentions the overrun of the timer counter but not that it shows: a lapse that is split
  exactly there fires timers that the undivided lapse does not (`HsmTime.BatchingExactIff`).

## Model

| member | source | states |
|---|---|---|
| `CbaRing.ChunksDisjoint` | source/cba.c:143-174 | in a reachable state two chunks share no byte and lie inside the buffer |
| `CbaRing.TilesOccupied` | source/cba.c:143-174 | a byte is between tail and free index if and only if exactly one chunk covers it |
| `CbaRing.WalkReachesFree` | source/cba.c:107-113 | the next index of a chunk is the following chunk, of the last one the free index, at which no chunk starts |
| `CbaRing.FreeIsTailOnlyWhenEmpty` | source/cba.c:278-292 | free and tail index meet exactly in the empty ring, so the loop and the reset of free tell empty from full |
| `CbaRing.ChunkLenHolds` | source/cba.c:77-87 | the rounded 16-bit length holds the request exactly up to 65532 bytes |
| `CbaRing.MallocTiled` | source/cba.c:143-174 | a malloc, wrapping or not, keeps the layout |
| `CbaRing.MallocEffect` | source/cba.c:143-174 | a malloc adds one bound chunk at the head; no other chunk moves or shrinks, and only the newest can grow |
| `CbaRing.MallocSucceedsIffGap` | source/cba.c:143-174 | a malloc succeeds if and only if some stretch of free bytes holds header, rounded length and one byte to spare |
| `CbaRing.CoalesceDropsUnbound` | source/cba.c:278-286 | the freeing loop removes exactly the unbound chunks in front of the first bound one |
| `CbaRing.FreeEffect` | source/cba.c:265-296 | free clears one flag and, at the tail only, removes the unbound chunks there |
| `CbaRing.ReallocTiled` | source/cba.c:233-257 | a realloc, in place or relocating across the wrap, keeps the layout |
| `CbaRing.ReallocCapacity` | source/cba.c:233-257 | a successful realloc leaves a bound chunk at the index it returns, with room for the request exactly if its rounded length did not wrap round 16 bits |
| `CbaRing.SmallRequestRefusedIff` | source/cba.c:242-246 | a request of at most the chunk's length is refused if and only if it equals it and the chunk is not the newest; otherwise nothing changes |
| `CbaRing.ReallocGrowsIff` | source/cba.c:245-256 | growing the newest chunk succeeds if and only if there is room for it where it is or a gap for another one; it stays where it is whenever there is room |
| `CbaRing.HeadersSufficeIff` | source/cba.c:33-40 | the 12-bit field keeps every chunk length a buffer can hold if and only if the buffer has at most 4100 bytes |
| `CbaRing.LengthLost` | source/cba.c:127 | in every larger buffer one malloc stores length 0 for a chunk of 4096 bytes |
| `CbaAllocator.SetBound` | source/cba.c:33-40 | writing the bound bit keeps the length bits beside it |
| `CbaAllocator.SetLenLow` | source/cba.c:33-40 | writing the low length bits keeps the bound bit beside them |
| `CbaAllocator.PlacedInRing` | source/cba.c:122-136 | writing the new chunk's header leaves every chunk's header and every payload as it was |
| `CbaAllocator.WrappedInRing` | source/cba.c:161-168 | so do the two header writes of a wrap |
| `CbaAllocator.UnboundInRing` | source/cba.c:270-274 | clearing a bound flag in the bytes changes that chunk's header only |
| `CbaAllocator.PayloadWritten` | source/cba.c:252 | writing inside one payload leaves all headers and other payloads alone |
| `CbaAllocator.Cba.constructor` | source/cba.c:185-192 | an initialized allocator is the empty ring |
| `CbaAllocator.Cba.Reset` | source/cba.c:209-214 | a reset empties the ring whatever the buffer holds |
| `CbaAllocator.Cba.NextChunkIdx` | source/cba.c:107-113 | the index computed from the header bytes is the next chunk's, or the free index |
| `CbaAllocator.Cba.ReallocateChunk` | source/cba.c:122-136 | the four header bytes encode a bound chunk, no other byte changes, head and free index move on |
| `CbaAllocator.Cba.AllocateChunk` | source/cba.c:143-174 | at the free index or over the head chunk it does what the ring says, and on failure changes nothing |
| `CbaAllocator.Cba.Malloc` | source/cba.c:220-223 | malloc refines the ring, returns the payload of the head chunk, keeps every payload; NULL changes nothing |
| `CbaAllocator.Cba.Realloc` | source/cba.c:233-257 | for every 16-bit request realloc refines the ring; the first bytes of the result are the old contents, every other payload is unchanged, NULL changes nothing |
| `CbaAllocator.Cba.Relocate` | source/cba.c:250-254 | the move to the new chunk keeps the bytes and frees the old chunk |
| `CbaAllocator.Cba.Free` | source/cba.c:265-296 | free refines the ring and keeps every payload |
| `CbaAllocator.Cba.FreeTail` | source/cba.c:276-293 | the loop over header bytes ends and removes what coalescing removes; an emptied ring has all indices 0 |
| `CbaRuns.RunSound` | source/cba.c:220-296 | in every run of calls on held chunks, every held chunk is bound and a nonempty ring starts with a bound chunk |
| `CbaRuns.RebindLoses` | source/cba.c:161-168 | a wrap over a freed newest chunk binds it again and nobody holds it |
| `CbaRuns.BoundIsHeldIff` | source/cba.c:126 | after a run the bound chunks are the held ones if and only if no malloc wrapped over a freed newest chunk |
| `CbaRuns.DrainedIff` | source/cba.c:274-293 | with everything freed in any order, the ring is empty with indices 0 if and only if no such malloc happened |
| `CbaRuns.TailIsHeld` | source/cba.c:276-286 | without such a malloc a nonempty ring starts on a held chunk |
| `CbaRuns.RebindingHappens` | source/cba.c:161-168 | a run of seven calls after which nothing is held and the ring is not empty |
| `CbaRuns.SmallReallocIff` | source/cba.c:242-246 | after any run, a held chunk resized to at most its length: the same, the newest chunk's length being as malloc rounds |
| `MessageList.MsgList.constructor` | source/core/message-list.c:47-52 | an initialized list is the empty sequence |
| `MessageList.MsgList.Push` | source/core/message-list.c:61-75 | push appends, through the tail pointer |
| `MessageList.MsgList.Pop` | source/core/message-list.c:82-97 | pop removes and returns the first node, or NULL from an empty list |
| `MessageList.MsgList.Peek` | source/core/message-list.c:104-107 | peek returns the first node |
| `MessageList.MsgList.FindMsgType` | source/core/message-list.c:138-149 | the first message of the type, or NULL exactly if there is none |
| `MessageQueue.PopTakesFirst` | source/core/message-queue.c:63-75 | popping takes the first message of all in the order of priority, then of pushing, and fails only on an empty queue |
| `MessageQueue.PushGoesBehind` | source/core/message-queue.c:50-56 | a pushed message stands behind all of its priority and above, before all below |
| `MessageQueue.MsgQueue.constructor` | source/core/message-queue.c:14-18 | an initialized queue has three empty lists that own no node |
| `MessageQueue.MsgQueue.Push` | source/core/message-queue.c:50-56 | the message is appended to the list of its priority, which then owns it; an unknown priority is refused |
| `MessageQueue.MsgQueue.Pop` | source/core/message-queue.c:63-75 | the head of the first list that is not empty, with its priority; no list owns it any more |
| `MessageQueue.MsgQueue.Peek` | source/core/message-queue.c:82-94 | the same message, left in place |
| `MessageQueue.MsgQueue.FindMsgType` | source/core/message-queue.c:97-116 | the first message of the type in the given list, or in the highest list that has one |
| `MessageQueue.MsgQueue.Length` | source/core/message-queue.c:123-130 | the number of messages in all lists |
| `SchedulerRuns.SendInStep` | source/core/process.c:165-173 | a send keeps chunk order equal to message order and appends the message |
| `SchedulerRuns.EndInStep` | source/core/scheduler.c:265 | the free after a delivery removes exactly the delivered message's chunk |
| `SchedulerRuns.RunInStep` | source/core/scheduler.c:238-312 | over every run the ring's chunks are, in order, the message being delivered and the queued ones, all bound |
| `SchedulerRuns.DrainedIsEmpty` | source/core/scheduler.c:238-312 | delivered messages are the first posted ones, once each, in order; the allocator is initial if and only if nothing is queued or being delivered |
| `SchedulerRuns.SendFailsOnlyWhenFull` | source/core/process.c:165-173 | a send fails if and only if the buffer has no gap for it |
| `SchedulerRuns.ChunkHoldsMessageIff` | source/core/message-list.c:14-18 | the chunk asked for holds node and message if and only if they take at most 65532 bytes |
| `Scheduler.Scheduler.constructor` | source/core/scheduler.c:124-136 | an initialized scheduler has an empty queue and an empty ring |
| `Scheduler.Scheduler.NewMessage` | source/core/scheduler.c:273-280 | the message's bytes lie in the newest chunk, those of all other messages are intact |
| `Scheduler.Scheduler.Send` | source/core/process.c:165-173 | malloc, copy and post together are one send; it fails exactly when malloc does |
| `Scheduler.Scheduler.UtilizeMessage` | source/core/scheduler.c:238-266 | delivers the oldest message with exactly the bytes and receiver it was sent with, whatever is sent meanwhile, and frees it |
| `Scheduler.Scheduler.PopMessage` | source/core/scheduler.c:240-245 | the popped node describes the oldest posted message |
| `Crc.CalculateCrc8` | source/core/dart.c:82-87 | the loop computes the xor of preset and bytes |
| `Crc.CalculateCrc16` | source/core/dart.c:88-96 | the loop computes the fold of its one-byte step |
| `Crc.RoundIsStep16` | source/core/dart.c:91-95 | the shifts and exclusive-ors of one round compute the round of the specification, given bit by bit |
| `Crc.Step16IsEightBits` | source/core/dart.c:91-95 | one shift-and-xor round is eight rounds of the bit-wise register with generator x^16+x^12+x^5+1 |
| `Crc.Crc16IsRemainder` | source/core/dart.c:88-96 | on every byte string the loop computes the remainder of polynomial long division by that generator, the preset added in front |
| `Crc.Step16Injective` | source/core/dart.c:92-94 | a round is a bijection in the register and in the byte |
| `CrcBursts.Crc16DetectsBurst` | source/core/dart.c:88-96 | no two messages with their 2-byte checks differ only within 16 consecutive bits, wherever these fall |
| `CrcBursts.Crc8DetectsBurst` | source/core/dart.c:82-87 | nor two with their 1-byte checks only within 8 |
| `DartFrame.FrameFields` | source/core/dart.c:29-77 | length, data and check bytes read from a frame are those it was made of |
| `DartFrame.SmallDamageDetected` | source/core/dart.c:80-100 | data and check bytes damaged only within as many consecutive bits as there are check bits do not match |
| `DartProtocol.FindNext` | source/core/dart.c:234-248 | the highest list whose first message may be sent now, none exactly if there is no such list |
| `DartRuns.StepSound` | source/core/dart.c:338-854 | every input keeps the invariants of watchdogs, conservation, order and reports |
| `DartRuns.RetryTransferSound` | source/core/dart.c:519-538 | so does a retry, which gives up after the third attempt |
| `DartRuns.AcknowledgeMsgSound` | source/core/dart.c:546-569 | so does an acknowledge, which frees a message or makes a request pending |
| `DartRuns.NothingMeansEmpty` | source/core/dart.c:354-392 | a trigger answers idle only with all queues empty and nothing pending |
| `DartRuns.RunSound` | source/core/dart.c:338-854 | so does every run of inputs |
| `DartRuns.MessagesConserved` | source/core/dart.c:519-624 | in every run each queued message is in exactly one of queue, pending request and finished; finished ones were reported once and freed once, in that order |
| `DartRuns.SendOrderKept` | source/core/dart.c:835-854 | in every run the messages of one priority leave the queue in send order |
| `DartRuns.WatchdogsRun` | source/core/dart.c:354-392 | in every run the ack timer runs iff a transfer does, the response timer iff a request is pending, and then no other request is in flight |
| `DartRuns.PendingNotOverwritten` | source/core/dart.c:546-569 | an acknowledge never replaces a pending request |
| `DartRuns.ReportsHonest` | source/core/dart.c:503-538 | in every run attempts are one more than retries and at most three, failure comes after exactly three, completion only with nothing left, idle also without a partial frame and with both pins low; a transfer starts only with both pins high |
| `DartProgress.EverythingFinishes` | source/core/dart.c:734-808 | from any state of a link, with RDY high and dart_handle_time called whenever the clock has moved on, by at most 2^31 ms, everything queued is finished and reported within 3907 calls for each message outstanding and 4813 for each sent meanwhile, and 4814 more, whatever bytes arrive |
| `DartTiming.QuietWakes` | source/core/dart.c:796-798 | on a quiet link with RDY high, WRK low and no closing in progress the next call raises WRK and answers Pending |
| `DartTiming.QuietLinkCloses` | source/core/dart.c:768-795 | a quiet link with RDY low: WRK is high up to the first call at which 50 ms have passed since the first one, and low from then on; IDLE is reported at the first call at which another 100 ms have passed, once, and nothing else ever |
| `DartTiming.QuietLinkIdles` | source/core/dart.c:768-795 | so with calls whenever the clock moves WRK is low after 51 of them and IDLE reported, once, after 151 |
| `DartTiming.ByteEndsClosing` | source/core/dart.c:643 | any byte, and any transfer that starts, makes the closing begin anew |
| `DartTiming.AnswersIdleIff` | source/core/dart.c:734-808 | without a pending request a call answers idle if and only if the link is quiet and not waking up |
| `DartTimeouts.Intervals` | source/core/dart.c:102-112 | in every run the acknowledge timer of a transfer is of 300 ms, the response timer of a request of 3000 ms |
| `DartTimeouts.AckOver` | source/core/dart.c:742-753 | with the 300 ms over the message is sent again, the third time given up, or with RDY low goes back to waiting |
| `DartTimeouts.Unanswered` | source/core/dart.c:742-753 | a message nobody answers: nothing happens before the first call at which 300 ms have passed, and there it is sent again or, the third time, given up |
| `DartTimeouts.ResponseOverIff` | source/core/dart.c:736-740 | at any call, whatever else goes on, a pending request is abandoned if and only if its 3000 ms are over |
| `DartTimeouts.Abandoned` | source/core/dart.c:591-597 | a request nobody answers: nothing happens before the first call at which 3000 ms have passed, and there it is abandoned and freed |
| `DartTimeouts.AckStartsResponse` | source/core/dart.c:556-561 | an acknowledge makes a request pending and starts its 3000 ms |
| `DartTimeouts.ImpossibleAfterThree` | source/core/dart.c:359-378 | with something to send and RDY never high, WRK is raised three times for 500 ms each, and the call after that, and no earlier one, reports that the transfer is impossible |
| `DartTimeouts.BadRepeats` | source/core/dart.c:661-663 | 0xBB on an open line sends the message in flight again, the third time gives it up, without one does nothing |
| `DartTimeouts.CanStarts` | source/core/dart.c:664-666 | 0xCC starts the next message at once |
| `DartTimeouts.OtherBytesIgnored` | source/core/dart.c:667-677 | any other byte that begins no frame, and any of these on a closed line, does nothing |
| `DartTimeouts.SyncOpens` | source/core/dart.c:646-654 | 0x55 begins a frame, starts the 30 ms and raises WRK |
| `DartSends.SendQueues` | source/core/dart.c:815-854 | a send appends the message to one list and to nothing else: the one asked for, or without a priority the high one for a response, the normal one for a report, the low one for a request; types from 0xC0 on, unknown priorities and a failed allocation change nothing |
| `DartSends.StartsAtOnce` | source/core/dart.c:234-248 | with nothing in flight and RDY high the first message of the highest list starts at once; only requests wait, and only for a pending one |
| `DartSends.StatusTells` | source/core/dart.c:354-392 | the status answered tells what was started or reported |
| `DartSends.StartedByType` | source/core/dart.c:815-828 | in every run whose sends leave the priority open, no response waits when anything else is started, and only requests wait when a request is |
| `DartSends.ReceivedWasSent` | source/core/dart.c:483-495 | whatever one of two links receives are the data of a send to the other, or the deferred content for a send of one byte |
| `DartResponses.DoneAfterResponse` | source/core/dart.c:606-624 | in every run a request is reported done only directly after a message was handed on that is the response with its low six bits, with that message's length |
| `DartResponses.FrameFinishesIff` | source/core/dart.c:606-624 | the last byte of an intact frame reports the pending request done and frees it if the frame is its response, and otherwise leaves request, response timer and queue alone |
| `KnownFrames.LongFrame` | source/core/dart.c:429-445 | the frame of the digits 1 to 9 with two length and two check bytes, written out |
| `KnownFrames.ShortFrame` | source/core/dart.c:429-445 | a frame with one of each |
| `KnownFrames.LongLength` | source/core/dart.c:46-56 | two length bytes are the length, high byte first |
| `DartStreams.FrameAnswered` | source/core/dart.c:698-715 | the last byte of a frame delivers it and answers ACK if its check bytes are right, else answers BAD, and empties the buffer |
| `DartStreams.OversizeRefused` | source/core/dart.c:685-694 | the last byte of a header that announces more than there is room for empties the buffer; nothing is delivered or answered |
| `DartStreams.SignalHandled` | source/core/dart.c:656-678 | a byte between frames delivers and answers nothing, and settles at most one message, only if it is ACK |
| `DartStreams.StreamDeliveredSoFar` | source/core/dart.c:631-716 | at any point of a stream of frames, oversize headers and signals, among any other inputs, what was delivered and answered is a prefix of what the stream says |
| `DartStreams.StreamDelivered` | source/core/dart.c:631-716 | at its end everything was, in order, and the buffer is empty |
| `DartStreams.RoundTrip` | source/core/dart.c:429-445 | the frames made of any messages that fit are received as exactly those messages, one ACK each |
| `DartStreams.DamageRefused` | source/core/dart.c:702-712 | a frame damaged within 8 consecutive bits of data and check bytes, or 16 with two check bytes, is answered BAD and never delivered |
| `DartStreams.StepReceiving` | source/core/dart.c:631-716 | every input keeps the write index below the buffer size and below the frame length |
| `DartStreams.RunReceiving` | source/core/dart.c:644 | in every run the write index is inside the buffer, which only has to hold a frame header |
| `DartStreams.SmallBufferFills` | source/core/dart.c:644 | a buffer that cannot hold a header is filled by sync bytes, so the next write would leave it |
| `DartParser.ParseIsStream` | source/core/dart.c:679-698 | every byte string is a stream of frames, oversize headers and single bytes, and the beginning of a frame |
| `DartParser.ReceiverIsParser` | source/core/dart.c:631-716 | for every byte string that arrives in time, among any other inputs: delivered are the intact frames the parser finds, in order, answered are they and the damaged ones, and in the buffer is what the parser leaves |
| `DartParser.EveryRunIsParsed` | source/core/dart.c:631-716 | the same for every run of a fresh link, a late byte making the parser drop what it has and start again; TRANSFER_CORRUPTED is reported once for each damaged frame and oversize header, TRANSFER_INCOMPLETE once for each late byte |
| `DartReading.EveryRunIsRead` | source/core/dart.c:633-640 | and a byte is late if and only if a frame has begun and the one before came 30 ms or more ago, so that all this is a function of the bytes and the times between them |
| `DartPair.RunGenuine` | source/core/dart.c:483-495 | in every run each transfer is of a message that was sent and puts exactly its frame on the wire; everything else on it is an answer; an ACK is sent for each message received and for nothing else |
| `DartPair.OutputIsStream` | source/core/dart.c:398-445 | all bytes a link sends are a stream of whole intact frames and single answers |
| `DartPair.WireDelivers` | source/core/dart.c:429-716 | the other link receives the data of the first transfers in order, of all of them once all bytes have arrived, one ACK each |
| `DartPair.TwoLinks` | source/core/dart.c:429-716 | two links that read only what the other has sent hear each other, whatever else happens to either |
| `DartPair.AcksAreReceipts` | source/core/dart.c:546-569 | a link takes no more messages to be acknowledged than the other has received |
| `DartPair.AcknowledgedIsReceived` | include/mx/core/dart.h:76 | if the sender repeats no transfer, the messages it takes to be acknowledged are the first ones the other side received, in order |
| `DartLogs.RunGrows` | source/core/dart.c:338-854 | in every run what was sent, reported and received stays in the history |
| `DartReceipts.OnlyAckSettles` | source/core/dart.c:546-569 | an input makes a message count as acknowledged if and only if it is an ACK between frames, on an open line, with a message in flight |
| `DartReceipts.AckSettles` | source/core/dart.c:546-569 | and then it is the message in flight |
| `DartReceipts.AcksReadAreReceipts` | source/core/dart.c:606-716 | a link has read at most as many ACK bytes as the other has sent, and all of them once it has read everything |
| `DartReceipts.AckBeforeReceipt` | source/core/dart.c:700-716 | a step that hands on a message has sent its ACK before |
| `DartReceipts.CutReceives` | source/core/dart.c:631-716 | of any run joined to a sender, the part up to the moment it had sent all that the sender has read is joined to it too, and has received exactly as many messages as the sender has read ACK bytes |
| `DartReceipts.SurelyReceivedIff` | source/core/dart.c:546-569 | at any moment, with n ACK bytes read, dropped ones counted: data have been received by every link that the sender can be joined to if and only if they are the data of one of its first n transfers |
| `DartReceipts.AcknowledgedIffTransferred` | source/core/dart.c:546-569 | so the message settled by the n-th ACK byte has then for certain been received if and only if its data are among those of the first n transfers, with any repetitions, failures and stale bytes before |
| `DartReceipts.DoneIffTransferred` | include/mx/core/dart.h:76 | whenever a message is reported TRANSFER_DONE, a request included, it has been transferred, and then and ever after it has for certain been received if and only if its data are among those of the first n transfers |
| `DartReceipts.SenderCanTell` | source/core/dart.c:519-569 | a message has for certain been received if more ACK bytes were read than transfers made before its first attempt, and only then unless the same data were transferred before |
| `DartStaleAck.StaleAcknowledge` | source/core/dart.c:527-530 | a run of both links with one repetition, after which the second message is reported done and was never received |
| `DartReports.CompleteIffTransferred` | include/mx/core/dart.h:78 | when TRANSFER_COMPLETE is reported, and ever after: the transfers made are of the messages queued, of each at least one; all of them have for certain been received if and only if the data of the first n transfers cover those of all transfers made |
| `DartReports.CompleteMeansReportedDoneIff` | source/core/dart.c:503-538 | when TRANSFER_COMPLETE is reported every message queued has been reported finished, once; all were reported done if and only if none was reported failed or abandoned |
| `DartReports.CompleteAfterFailure` | source/core/dart.c:531-536 | a run in which TRANSFER_COMPLETE follows TRANSFER_FAILURE |
| `DartReports.CompleteWithoutReceipt` | source/core/dart.c:527-530 | a run of both links in which TRANSFER_COMPLETE follows with both messages reported done and the second never received |
| `DartReports.AbandonedButReceived` | source/core/dart.c:591-597 | a run of both links in which TRANSFER_COMPLETE follows with the only message reported abandoned and for certain received |
| `DartMemory.LiveMessagesOwnChunks` | source/core/dart.c:835-852 | with mallocs served by the allocator, each queued or pending message and nothing else has a chunk of its own, held and bound |
| `DartMemory.FreesAreOwned` | source/core/dart.c:338-347 | whenever the link frees a message, its chunk is held and bound: no double free, no free of another's chunk |
| `DartMemory.PoolRecoveredIff` | source/core/dart.c:576-583 | with everything finished the pool is empty if and only if no malloc wrapped over the chunk of a freed message |
| `DartPool.MessagePool.Queue` | source/core/dart.c:845-850 | malloc and copy put the message's bytes into a new chunk and leave those of all live messages intact; without memory nothing changes |
| `DartPool.MessagePool.Release` | source/core/dart.c:338-347 | a free leaves the bytes of all other live messages intact |
| `DartPool.Play` | source/core/dart.c:835-852 | after any history of a link its pool, with the bytes in it, is that of `DartMemory`, and every message that is live has its bytes as they were sent |
| `DartPool.QueuedIsLive` | source/core/dart.c:835-852 | in every run these are the messages in the lists and the pending request |
| `DartPoolRun.PoolNotRecovered` | source/core/dart.c:338-347 | a run of four messages, all done and completion reported, after which a chunk that nobody holds is still bound |
| `DartLink.Dart.constructor` | source/core/dart.c:128-142 | an initialized link |
| `DartLink.Dart.CalculateCheck` | source/core/dart.c:69-100 | the check bytes of a part of a buffer |
| `DartLink.Dart.PushFrame` | source/core/dart.c:429-445 | the buffer composed and sent is sync byte, length, data and check bytes |
| `DartLink.Dart.TransferMsg` | source/core/dart.c:483-495 | the frame of the message, or of its deferred content, goes out and the ack timer starts |
| `DartLink.Dart.FindNext` | source/core/dart.c:234-248 | the loop finds the list the specification names |
| `DartLink.Dart.TriggerTransfer` | source/core/dart.c:354-392 | wake-up, peer check and start of the next transfer do what the specification says |
| `DartLink.Dart.TriggerNext` | source/core/dart.c:503-511 | and the report of completion |
| `DartLink.Dart.FinalizeTransfer` | source/core/dart.c:338-347 | the message in flight leaves its list and is freed |
| `DartLink.Dart.RetryTransfer` | source/core/dart.c:519-538 | the message is transferred again, or after three attempts reported and dropped |
| `DartLink.Dart.AcknowledgeMsg` | source/core/dart.c:546-569 | a request becomes pending, any other message is reported and freed |
| `DartLink.Dart.FinalizeRequest` | source/core/dart.c:576-583 | the pending request is freed and the next transfer triggered |
| `DartLink.Dart.AbandonRequest` | source/core/dart.c:591-597 | a pending request is reported abandoned first |
| `DartLink.Dart.HandleReceivedMsg` | source/core/dart.c:606-624 | a message is handed on and, if it is the awaited response, finishes the request |
| `DartLink.Dart.HandleReceivedChar` | source/core/dart.c:631-716 | one byte: timeout, store, signal, length check, frame end |
| `DartLink.Dart.HandleTime` | source/core/dart.c:734-808 | one tick: response, acknowledge and wake-up timeouts, closing and idling |
| `DartLink.Dart.SendMsg` | source/core/dart.c:835-854 | a message is queued under its priority and a transfer triggered, or refused with the source's status |
| `DartLink.Dart.Apply` | source/core/dart.c:631-854 | every input does to the object what it does to the specification and keeps all invariants |
| `HsmEvents.BubbleClimbs` | source/core/hsm.c:170-175 | an event visits the ancestors in order up to the first answer other than SUPER |
| `HsmEvents.LeaveClimbs` | source/core/hsm.c:183-190 | EXIT goes leaf first to as many states as the depth says, fewer only if one does not answer SUPER |
| `HsmEvents.EnterEnters` | source/core/hsm.c:193-201 | ENTER follows the redirections and ends in the last state entered |
| `HsmEvents.EventTrace` | source/core/hsm.c:165-209 | the handler calls of one event are these three parts; without a transition the stored state is unchanged. Every answer is the handler's to what it found: the container and, but for ENTER, the timer as the call before left them; on ENTER all timers disabled and the counter 0. After the event timer and container are what the last call left |
| `HsmTime.HandleEventCounter` | source/core/hsm.c:165-209 | an event leaves the timer counter or sets it back, never forward |
| `HsmTime.BetweenBoundaries` | source/core/hsm.c:68-103 | strictly before the next boundary no timer is ready, unless the counter has just overrun to 0; without an overrun the distance shrinks by the time passed |
| `HsmTime.PastOverrun` | source/core/hsm.c:68-103 | after an overrun inside a jump the old boundary is none and the next one is later; on the overrun itself all enabled timers are ready |
| `HsmTime.StopShort` | source/core/hsm.c:218-242 | stopping before a boundary and going on is going on, across the overrun too, unless the stop is on it with a timer enabled |
| `HsmTime.SplitExact` | source/core/hsm.c:218-242 | a split that does not fall inside a jump on the overrun is invisible, for a second part of any length |
| `HsmTime.SplitSeen` | source/core/hsm.c:218-242 | for every machine, a split that does is seen in the handler calls one millisecond later |
| `HsmTime.BatchingExactIff` | source/core/hsm.c:218-242 | a lapse that starts with a milliseconds has the handler calls and the final state of these and then the rest, whatever the rest, if and only if the split does not hit the overrun; for handlers that transition, reset and re-enable timers |
| `HsmTime.OneJumpIff` | source/core/hsm.c:218-242 | before the next boundary: if and only if counter plus a is not the range of the counter, or no timer is enabled |
| `HsmTime.BatchingExact` | source/core/hsm.c:218-242 | hence always when the first part stays below the overrun, the second being of any length |
| `HsmTime.TickingExact` | source/core/hsm.c:218-242 | a lapse up to the overrun is that many lapses of one millisecond |
| `HsmTime.TickingExactIff` | source/core/hsm.c:218-242 | all lapses up to n are, if and only if no millisecond before the last falls inside a jump on the overrun with a timer enabled |
| `HsmTime.WrapIsSeen` | source/core/hsm.c:64-65 | a concrete lapse split on the overrun |
| `HsmTimers.DueEvents` | source/core/hsm.c:86-100 | the events due at a counter value: the enabled ones whose period (1, 10, 100, 1000, 10000, 60000 ms) divides it, in ascending period |
| `HsmTimers.OneMillisecond` | source/core/hsm.c:218-242 | for every machine one millisecond delivers exactly the events due at the next counter value, in that order |
| `HsmTimers.LapseDelivers` | source/core/hsm.c:218-242 | while handlers leave state and timers alone, a lapse below the overrun delivers each enabled event as often as there are multiples of its period among the counter values passed |
| `HsmObject.Hsm.constructor` | source/core/hsm.c:132-138 | an initialized machine is in its initial state, its timer as it was |
| `HsmObject.Hsm.HandleEvent` | source/core/hsm.c:165-209 | the loops over the stored state make the handler calls of the specification |
| `HsmObject.Hsm.SendExits` | source/core/hsm.c:183-190 | the EXIT loop over the unwind field |
| `HsmObject.Hsm.SendEnters` | source/core/hsm.c:193-201 | the ENTER loop, timers initialized before each call |
| `HsmObject.Hsm.TimerCheck` | source/core/hsm.c:68-103 | the counter moves to the next boundary or by the whole lapse, and the ready timers are those on a boundary |
| `HsmObject.Hsm.HandleTime` | source/core/hsm.c:218-242 | the loop does what the specification of a lapse says |
| `ClockRuns.ClockExact` | source/timer.c:22-30 | after any updates clock_ms is the true time modulo 2^32, and seconds and milliseconds together are the true time less 296 ms for each wrap plus 1000 ms for each borrow, less 2^32 ms instead for each update that overflows the sum in line 25 |
| `ClockRuns.LagExact` | source/timer.c:19 | with updates of at most 2^32-1000 ms, which never overflow it, the lag is 0 before the first wrap, and 296 ms or -704 ms after it |
| `ClockRuns.WrapOf` | source/timer.c:25-26 | both lags occur, depending on where in a second the wrap falls |
| `ClockRuns.MillisIsTotal` | source/timer.c:26 | clock_ms is the true time modulo 2^32 for updates of any size |
| `ClockRuns.TimerExact` | include/mx/timer.h:73-93 | a millisecond timer shows the true elapsed time below 2^32 ms, across the wrap too, and is expired iff its interval is nonzero and over |
| `ClockObject.SystemClock.Update` | source/timer.c:22-30 | the counters stay those of all updates made |
| `ClockObject.SystemClock.GetMilis` | source/timer.c:37-40 | the true time modulo 2^32 |
| `ClockObject.SystemClock.GetSeconds` | source/timer.c:47-50 | for all updates, the true seconds corrected by wraps, borrows and overflows, modulo 2^32 |
| `ProcessTimerRuns.DoSound` | source/core/scheduler.c:333-362 | start and stop keep the list duplicate-free and equal to the timers that wait |
| `ProcessTimerRuns.RoundLowersDue` | source/core/scheduler.c:384-392 | one round of the handler, callback included, leaves fewer expired timers |
| `ProcessTimerRuns.HandleSound` | source/core/scheduler.c:384-392 | the handler keeps the list sound and leaves no expired timer |
| `ProcessTimerRuns.RunSound` | source/core/scheduler.c:333-392 | so does every run of starts, stops and handler calls with any callbacks |
| `ProcessTimerRuns.FiresOncePerStart` | source/core/scheduler.c:365-392 | in every run a timer that fires was started, not stopped, restarted or fired since, and its interval is over |
| `ProcessTimerRuns.DueIsHandled` | source/core/scheduler.c:384-392 | every timer expired when the handler is called fires, unless a callback starts or stops it first |
| `ProcessTimerList.TimerScheduler.Start` | source/core/scheduler.c:333-344 | the timer is set and put at the head of the linked list unless it is in it |
| `ProcessTimerList.TimerScheduler.Stop` | source/core/scheduler.c:347-362 | the timer is cleared and unlinked if it is in the list |
| `ProcessTimerList.TimerScheduler.Find` | source/core/scheduler.c:337-340 | the search finds the timer exactly if it is in the list |
| `ProcessTimerList.TimerScheduler.FindExpired` | source/core/scheduler.c:365-381 | the first expired timer is cleared, unlinked and returned; NULL if there is none |
| `ProcessTimerList.TimerScheduler.Handler` | source/core/scheduler.c:384-392 | the loop ends and does what the specification of the handler says, callbacks included |
| `AvgTrim.PassMin` | source/lib/avg.c:61-91 | a full array and an input become the array and a value that is none of the smaller ones, nothing lost or invented |
| `AvgTrim.PassMax` | source/lib/avg.c:94-124 | the same for the largest |
| `AvgTrim.AddKeeps` | source/lib/avg.c:26-35 | minima, middle and maxima stay a split of all inputs by size, arrays filled first |
| `AvgTrim.AllTrimmed` | source/lib/avg.c:26-35 | after any inputs they are |
| `AvgTrim.IsTrimOfSorted` | source/lib/avg.c:26-35 | for any sorting of the inputs, minima holds its first k as a multiset, maxima its last m, count and sum are those of the rest |
| `AvgTrim.TotalsFit` | source/lib/avg.c:33-34 | the 32-bit totals are the totals of the trimmed inputs when those fit |
| `AvgTrim.RoundedIsNear` | source/lib/avg.c:47-58 | the result is the mean rounded down or up, and the nearest integer exactly unless the count is odd, at least 3, and the remainder its half rounded down |
| `AvgObject.Avg.constructor` | source/lib/avg.c:13-23 | an initialized average has no inputs |
| `AvgObject.Avg.Add` | source/lib/avg.c:26-35 | the object stays what all inputs make it |
| `AvgObject.Avg.AddMin` | source/lib/avg.c:61-91 | the array is filled first; then the loop finds the largest minimum and replaces it if the input is smaller |
| `AvgObject.Avg.AddMax` | source/lib/avg.c:94-124 | the same for the maxima |
| `AvgObject.Avg.Ready` | source/lib/avg.c:38-44 | ready iff the trimmed inputs are not empty |
| `AvgObject.Avg.Calculate` | source/lib/avg.c:47-58 | the rounded mean of the sorted inputs without their extremes, if their total fits 32 bits |
| `RingbufRuns.AndIsRemainder` | source/ringbuf.c:23 | masking with 2^k-1 is the remainder, for negative index differences too |
| `RingbufRuns.ElementsIsUnread` | source/ringbuf.c:49-52 | what either side computes from the two indices is the number of unread values |
| `RingbufRuns.RunSound` | source/ringbuf.c:21-40 | every interleaving keeps the slots of unread values and the indices right |
| `RingbufRuns.AnyInterleavingIsAQueue` | source/ringbuf.c:21-40 | the values got are a prefix of the values put, at most size-1 are stored |
| `RingbufRuns.UnreadSlotsKept` | source/ringbuf.c:26 | no access overwrites the slot of an unread value |
| `RingbufRuns.RefusedExactly` | source/ringbuf.c:21-40 | put is refused iff size-1 values are unread at its check, get iff none is |
| `RingbufRuns.WorksIffPowerOfTwo` | source/ringbuf.c:15 | a get always finds an unread value if and only if the size is a power of two |
| `RingbufObject.Ringbuf.constructor` | source/ringbuf.c:12-18 | a buffer of any size is initialized; it is a queue, and then empty, if and only if its size is a power of two |
| `RingbufObject.Ringbuf.Put` | source/ringbuf.c:21-29 | for any size put is its three accesses in a row; on a queue it appends, or refuses at size-1 values |
| `RingbufObject.Ringbuf.Get` | source/ringbuf.c:31-40 | for any size get is its three accesses in a row; on a queue it removes the oldest value, or refuses when there is none |
| `RingbufObject.Ringbuf.Count` | source/ringbuf.c:49-52 | on a queue the number of values stored |
| `RingbufObject.Ringbuf.Size` | source/ringbuf.c:43-46 | the size the buffer was given, as one byte |

## Left out

- CBA_VALIDATION: the build with end markers and marker checks is not modelled.
- CbaAllocator.Cba.constructor: pools above 4100 bytes are excluded, because a chunk length would be truncated (`CbaRing.HeadersSufficeIff`, `CbaRing.LengthLost`); so they are in Scheduler.Scheduler.constructor.
- MessageList.MsgPtr: next pointer, length and receiver of a message are fields of a node object, not bytes of the allocator's buffer; the message bytes are in the buffer.
- Scheduler.Scheduler.Send: node sizes are those of a 64-bit target, and messages that do not fit the chunk asked for are excluded, because the copy would leave it (`SchedulerRuns.ChunkHoldsMessageIff`).
- Scheduler.Scheduler.NewMessage: as for Send.
- Scheduler.Scheduler.UtilizeMessage: the process called is whoever the receiver field names; broadcast, polling and process states are not modelled.
- msg_list_remove: it never moves the tail pointer, so removing the last node breaks the list; no caller in the library.
- DartLink.Dart.constructor: the message pool is not part of the object; `DartPool` plays the history of the link on the allocator and its bytes.
- DartLink.Dart.SendMsg: whether the allocation succeeds is an input; `DartMemory` takes it from the allocator.
- DartLink.Dart.FinalizeTransfer: the free is an entry of the history, which `DartMemory` turns into a free of the allocator.
- DartLink.Dart.FinalizeRequest: as for FinalizeTransfer.
- DartLink.Dart.TransferMsg: the deferred-message callback yields one content for each type; a callback that sends several frames, or none and reports success, or that answers differently each time, is not covered.
- DartPair.AcknowledgedIsReceived: a sufficient condition only; the exact one is in `DartReceipts`. Two links are joined only if each byte arrives before the byte timer of its frame expires.
- DartPool.Play: messages whose malloc size wraps round 16 bits are excluded, because the copy would leave the chunk; so they are in DartPool.MessagePool.Queue.
- DartPool.MessagePool.Queue: as for Play.
- MSGTYPE_SIZE 2 (include/mx/core/message.h): message types are one byte, which the test for deferred messages (length 1) and the size of a message node assume.
- DartProtocol.Link: the three priority lists are sequences; that message-queue.c refines such lists is proved of `MessageQueue.MsgQueue`, which the link object does not use.
- AvgObject.Avg.Add: extreme arrays of size 0 that are not NULL are excluded, because the search would read past them.
- HsmEvents.Machine: handlers are functions of the machine and its container; chains of HSM_SUPER or of entry transitions that never end are excluded, since the C code would not return either.
- ProcessTimerRuns.Handle: a callback's use of the timers is one list of starts and stops for each call, whatever process it is.
- Seconds and chrono timers (TIMER_SEC, TIMER_CHRONO), which no modelled component uses.
- Process start, exit, polling and broadcast, and protothreads.
- dart_reset and dart_clean, and callbacks that call back into the link.
- UART, pins and interrupts, the hardware headers, tracing.
- source/lock.c, source/string.c and the thin wrappers around scheduler and timers.
