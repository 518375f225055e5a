# Camera frame streamer: a verified model

A camera process pushes frames into a bounded ring queue; a network thread pops them and sends each one as a 36-byte
header and a payload over TLS; a server reads the stream back, checks every header and may save the payloads. This
project models that path from `push` to the saved file and proves what it guarantees.

- `Bits`, `ByteOrder`: the bit operators and byte swaps the program is built from, and their arithmetic meaning.
- `SlotLayout`, `FifoModel`, `QueueMemory`: frames in the mapped region; the queue as a bounded FIFO over the list of all
  frames ever accepted (frame number *j* lives in slot *j* mod capacity); flags and bytes as they represent that FIFO.
- `RingQueue`: the queue class with its real byte region, flag array, indices and counters; each call is one critical
  section and is proved to be the FIFO operation.
- `QueueSteps`, `QueueInvariant`, `QueueProof`, `QueueTheorems`, `QueueCalls`, `QueueGuarantees`: the same queue as a step
  system. The capture thread, the network thread, the main thread (statistics and shutdown) and released packets interleave
  freely; locking, waiting, waking, every flag access, every index and counter update and every single byte moved is a step.
  One invariant holds in all reachable states, every run refines a run of the FIFO, and every call takes effect once, between
  its call and its return, and returns what the FIFO says there.
- `QueueStatistics`: what a statistics snapshot shows, and a run in which it shows more popped frames than pushed ones.
- `SharedQueue`: the step system as the network thread's own code meets it. Between any two of its steps, and between any
  two bytes it reads out of a packet's slot, the other threads take the steps of an arbitrary schedule.
- `Protocol`, `FrameStream`: the header as the client fills it and as the server reads it, and the parsing of any part of
  a stream of frames.
- `TlsClient`: connecting, backoff, the partial-write loop and the network loop against the shared queue, with writes and
  connects decided by an arbitrary script. A failing write may still have sent any prefix.
- `FrameServer`, `FrameFiles`: the partial-read loop, the parse loop, file names and the write loop, with reads and writes
  decided by arbitrary scripts.
- `Pipeline`: camera and server run together, and the end-to-end theorems. `Logger`: the fixed-buffer log message.
  `Wrappers`: the option type.

The main results are `Pipeline.EndToEnd`, `QueueGuarantees.Linearizable`, `QueueGuarantees.ReadsOverTime`,
`QueueGuarantees.SingleHolderDecision`, `QueueGuarantees.NoLostWakeup`, `QueueGuarantees.GivesUpOnlyAfterWaiting`,
`QueueGuarantees.SnapshotBound`, `QueueStatistics.SnapshotBrackets`, `SharedQueue.MutexGivenBack` and
`TlsClient.Client.NetworkLoop`; the rest builds up to them or completes them.

Where the code and its documentation differ, the model follows the code:

- README.md:29 and include/ring_queue.hpp:5-7 promise that a full queue drops its oldest frame. While a packet is held, the
  code drops the newest one instead, and it does so with a queue that is not full. `FifoModel.NewestCanBeLost` shows it;
  `QueueGuarantees.SingleHolderDecision` says exactly when, and `SharedQueue.LiveQueue.DropPolicy` says it of the program's
  own network loop.
- README.md:224 gives the header 40 bytes. The packed struct has 36, and 36 is what goes into `header_len`.
- The test inside the eviction loop (src/ring_queue.cpp:130-135) never succeeds: `QueueGuarantees.EvictionIsClean`. In
  `RingQueue.RingQueue.DropOldest` that branch is an `assert false`.
- Saved files have distinct names for all 64-bit sequence numbers if and only if the output directory's name has at most
  484 characters: `FrameFiles.NamesDistinctIff`.

Modelling decisions. Words are numbers with their range in the type; bit operators are defined bit by bit. The host is
little-endian. Counters, and the capture thread's sequence number, are unbounded: runs end before 2^64 frames.
A payload of length 0 stands for a null data pointer in the step system. Consecutive 28-byte header stores are modelled
byte by byte, which admits every interleaving the six field stores have. Sending reads the held slot one byte at a time, other
threads running before each; that these are the pushed frame's bytes is proved, not assumed. When a schedule ends in the
middle of a pop, the timed wait expires and the thread that owns the mutex goes on until it gives it back. The end of a
connection, for the server, is the end of the bytes that reach it.

## Model

| member | source | states |
|---|---|---|
| ByteOrder.HtonllInvolution | include/protocol.hpp:62-73 | htonll is its own inverse on every 64-bit word and stores the value most significant byte first |
| ByteOrder.HtonllIsFullReversal | include/protocol.hpp:64-65 | the two 32-bit swaps joined by shift and or are one reversal of all eight bytes |
| ByteOrder.SwapReadsBe | server/server.cpp:249-256 | converting a big-endian field after reading it from memory recovers the value stored |
| ByteOrder.BeOfSwap | server/server.cpp:279-283 | storing the converted field again restores the bytes it was read from |
| SlotLayout.StrideIsLeastMultiple | src/ring_queue.cpp:35-38 | the mask yields the least multiple of 64 that holds a header and a largest frame |
| SlotLayout.StrideCoversIff | src/ring_queue.cpp:35-38 | a slot holds a header and a largest frame iff the 64-bit sum does not wrap around |
| SlotLayout.SlotsDisjoint | src/ring_queue.cpp:40-46 | different slots do not overlap and all lie inside the mapped region |
| SlotLayout.StoredElsewhere | src/ring_queue.cpp:148-157 | writing inside one slot leaves header and data of every other slot as they were |
| SlotLayout.HeaderReadsBack | src/ring_queue.cpp:205-213 | the metadata read from a slot header is that of the frame stored there |
| FifoModel.OperationsKeepShape | src/ring_queue.cpp:111-257 | push, pop, release and shutdown keep the queue within its capacity and the held frames within one window |
| FifoModel.QueuedPlusHeldFit | src/ring_queue.cpp:129-147 | queued and held frames together never exceed the capacity; a full queue holds nothing |
| FifoModel.HeldAndQueuedSlotsDisjoint | include/ring_queue.hpp:12-14 | no two frames present, queued or held, share a slot |
| FifoModel.SingleHolderPolicy | include/ring_queue.hpp:36-37 | in every run with one packet at a time: eviction iff full, newest refused iff a packet is held and capacity - 1 frames are queued |
| FifoModel.NewestCanBeLost | include/ring_queue.hpp:5-7 | a run in which the newest frame is dropped from a queue that is not full |
| FifoModel.ShutdownDrains | src/ring_queue.cpp:123-126 | after shutdown nothing enters, nothing is dropped, pops return the rest in order and no more |
| FifoModel.FramesConserved | src/ring_queue.cpp:129-161 | over any run every frame offered to the open queue is popped, dropped or queued |
| QueueMemory.HeadFlag | src/ring_queue.cpp:142-147 | the flag tested at the head tells whether the frame accepted capacity pushes ago is held |
| QueueMemory.WriteAtFreeHead | src/ring_queue.cpp:149-157 | writing into the free head slot disturbs no queued and no held frame |
| QueueMemory.QueuedSlotUnflagged | src/ring_queue.cpp:129-135 | no slot between tail and head carries an in-use flag |
| RingQueue.RingQueue.constructor | src/ring_queue.cpp:50-90 | the queue is usable iff the parameters are positive and both allocations succeed, and then it is empty |
| RingQueue.RingQueue.StoreFrame | src/ring_queue.cpp:149-157 | the six header stores and the memcpy leave the whole image in the slot and everything else unchanged |
| RingQueue.RingQueue.DropOldest | src/ring_queue.cpp:128-140 | evicts exactly the oldest frame iff the queue is full, once |
| RingQueue.RingQueue.Push | src/ring_queue.cpp:111-166 | bad arguments change nothing; any other call is the FIFO push of that frame, and the result tells whether it was kept |
| RingQueue.RingQueue.Pop | src/ring_queue.cpp:168-242 | for every timeout: when the caller sleeps, gets null, or gets a packet that shows the FIFO's front; an expired wait returns null whatever arrived; an allocation failure takes the frame and frees its slot |
| RingQueue.RingQueue.ReleaseSlot | src/ring_queue.cpp:245-248 | exactly this frame is no longer held |
| RingQueue.RingQueue.Shutdown | src/ring_queue.cpp:250-257 | the stop flag is set and nothing else changes |
| RingQueue.RingQueue.GetStats | src/ring_queue.cpp:259-265 | without concurrent calls, pushed plus refused frames are the popped, dropped and queued ones |
| RingQueue.RingQueue.HeldViewSurvives | include/ring_queue.hpp:30-38 | between any two valid states a packet that stays held keeps showing its frame |
| RingQueue.FramePacketFree | src/ring_queue.cpp:267-271 | freeing releases the packet's slot once; null is ignored |
| QueueProof.StepKeepsInv | src/ring_queue.cpp:111-265 | every step of every thread keeps the whole-machine invariant |
| QueueProof.ProducerTests | src/ring_queue.cpp:130-147 | what the two flag tests of push can find in any reachable state |
| QueueProof.HeaderByte | src/ring_queue.cpp:205-213 | under the mutex every header byte read is the byte that was stored |
| QueueProof.PushedBound | src/ring_queue.cpp:132-161 | at every single step the three counters satisfy pushed <= dropped + popped + capacity |
| QueueTheorems.RunKeepsInv | src/ring_queue.cpp:111-265 | the invariant holds after every interleaving of any length |
| QueueTheorems.AppendIsPush | src/ring_queue.cpp:159-160 | the append step is the atomic push, which evicted iff the FIFO was full |
| QueueTheorems.RejectionIsPush | src/ring_queue.cpp:142-147 | finding the head slot in use is the atomic push that refuses the newest frame, and nothing was evicted before |
| QueueTheorems.RunRefinesFifo | src/ring_queue.cpp:111-257 | from any state with the invariant, every continuation is a run of the atomic FIFO |
| QueueTheorems.ZeroCopyStable | include/ring_queue.hpp:12-15 | from any state with the invariant, a packet's slot keeps the pushed bytes in every continuation that does not release it |
| QueueCalls.PushDecided | src/ring_queue.cpp:111-166 | the step at which a push takes effect is the FIFO's push of that call's frame, and it decides the answer the FIFO gives |
| QueueCalls.StepPermitted | src/ring_queue.cpp:173-203 | a pop takes a frame, or returns null, only where its kind of timeout permits it |
| QueueCalls.RunFollows | src/ring_queue.cpp:111-242 | from any state with the invariants, the results the calls of any continuation give are those of its FIFO operations |
| QueueGuarantees.Linearizable | src/ring_queue.cpp:111-257 | every interleaving is a run of the atomic FIFO from empty whose pushes are, in order, exactly the decided calls with 0 < len <= max_frame_size and the answers they got, and whose pops are the calls of pop with what they took; null is returned only where permitted |
| QueueGuarantees.AnswerExplained | src/ring_queue.cpp:111-166 | a call of push returns false if its payload is empty or larger than a slot holds; otherwise its answer is true iff the FIFO, at the point where it took the frame in, appended it or evicted for it, and false iff it refused or rejected it |
| QueueGuarantees.GivesUpOnlyAfterWaiting | src/ring_queue.cpp:182-198 | a timed pop gives up only after, within the same call, it held the mutex, found the queue empty and open, went to sleep, and its wait ran out in its sleep |
| QueueGuarantees.HeldPacketsStayIntact | src/ring_queue.cpp:205-248 | from pop until its release a packet's metadata and all bytes of its slot are those pushed, under any interleaving, for any number of held packets |
| QueueGuarantees.WritingTouchesNoFrame | include/ring_queue.hpp:12-15 | the slot being written is never one a live packet shows, nor one of a queued frame |
| QueueGuarantees.ReadFindsPushedByte | src/ring_queue.cpp:236-236 | in every reachable state, a byte read from a live packet's slot is the byte given to push |
| QueueGuarantees.ReadsOverTime | src/tls_client.cpp:392-393 | a payload put together from reads at any moments of the packet's life, one for each byte, is the pushed payload |
| QueueGuarantees.FlaggedSlotsAreNotQueued | src/ring_queue.cpp:129-161 | whenever the mutex is free: head = tail + count mod capacity, no queued slot is flagged, queued and held slots fit |
| QueueGuarantees.EvictionIsClean | src/ring_queue.cpp:129-147 | the in-use branch of the eviction loop is unreachable, the loop runs at most once, no push both evicts and rejects |
| QueueGuarantees.PopReturnsFront | src/ring_queue.cpp:204-219 | the metadata pop returns is that of the FIFO's front |
| QueueGuarantees.SnapshotBound | src/ring_queue.cpp:259-265 | every snapshot three separate loads can produce satisfies pushed <= dropped + popped + capacity |
| QueueGuarantees.PoppedBehindPushed | src/ring_queue.cpp:218-219 | at every step popped <= pushed, and a finished snapshot's popped is at most what is pushed by then |
| QueueGuarantees.SnapshotConfirmed | src/ring_queue.cpp:259-265 | a snapshot has popped <= pushed if the pushed counter, read again afterwards, is still the same |
| QueueStatistics.SnapshotCanShowMorePopped | src/ring_queue.cpp:259-265 | for every geometry a run whose snapshot shows one frame popped and none pushed |
| QueueStatistics.SnapshotBrackets | src/ring_queue.cpp:259-265 | in every interleaving each of the three numbers lies between its counter's values at the start and at the end of the call |
| QueueStatistics.SnapshotExact | src/ring_queue.cpp:259-265 | a call during which no counter moved returns the three counters |
| QueueGuarantees.CountersConserve | src/ring_queue.cpp:132-161 | between calls every frame that reached the open queue is popped, dropped or queued |
| QueueGuarantees.NoLostWakeup | src/ring_queue.cpp:160-197 | a sleeping consumer did not ask for a zero timeout, and it has an empty open queue, or the thread that wakes it is between its update and its signal |
| QueueGuarantees.NobodySleepsAfterShutdown | src/ring_queue.cpp:250-255 | once shutdown has returned the consumer is awake and never sleeps again, in every continuation |
| FifoModel.DrainResults | src/ring_queue.cpp:173-203 | after shutdown a zero-timeout pop returns null, and a blocking one returns null only after all remaining frames were taken |
| QueueGuarantees.DrainAfterShutdown | src/ring_queue.cpp:123-203 | after shutdown, in every interleaving: nothing enters, nothing is dropped, pops take the rest in order; zero-timeout pops return null, blocking ones only once nothing is left |
| QueueGuarantees.SingleHolderDecision | src/ring_queue.cpp:129-147 | with one packet at a time, in every interleaving: push refuses the newest frame iff a packet is alive and capacity - 1 frames are queued |
| QueueGuarantees.DeliveredInOrder | src/camera_capture.cpp:171-180 | the frames handed out are an ordered, duplicate-free selection of the calls of push |
| SharedQueue.OwnerProgress | src/ring_queue.cpp:111-257 | the owner of the mutex, whoever it is, can always step and comes closer to giving it back; whoever waits for it stays where it is |
| SharedQueue.MutexGivenBack | include/ring_queue.hpp:5-7 | in every interleaving the mutex is free again after a bounded number of its owner's own steps, so push never blocks for longer |
| SharedQueue.PushGoesOn | src/ring_queue.cpp:111-166 | a call of push goes on unless it waits for the mutex, and each of its steps brings its return closer |
| SharedQueue.NoDeadlock | src/ring_queue.cpp:111-257 | in every reachable state with a call going on and its consumer not asleep, some thread can take a step in its call |
| SharedQueue.ShutdownTakesEffect | src/ring_queue.cpp:250-257 | from the call of shutdown on, in every interleaving: once it has returned, the queue is shut down |
| SharedQueue.ShutdownAlone | src/ring_queue.cpp:250-257 | with a free mutex a call of shutdown runs to its end in four steps of its own and leaves the queue shut down and the mutex free |
| SharedQueue.LiveQueue.DropPolicy | src/ring_queue.cpp:129-147 | in every state the network loop goes through, push refuses the newest frame iff a packet is alive and capacity - 1 frames are queued |
| SharedQueue.LiveQueue.Pop | src/tls_client.cpp:368-372 | the timed pop returns, under every schedule of the other threads, and hands out the next frame of the delivered ones, or nothing; once the schedule has ended, nothing only from an empty queue, and from a free mutex on it hands out the front iff there is one |
| SharedQueue.LiveQueue.Load | src/tls_client.cpp:392-393 | the byte found in a packet's slot after any further steps of the other threads is the pushed one |
| Protocol.FrameHeader.Init | include/protocol.hpp:78-94 | afterwards the struct's memory is the wire format with every field big-endian |
| Protocol.PackedParts | include/protocol.hpp:46-59 | the packed struct has 36 bytes and its fields lie at the wire's offsets |
| Protocol.WireStart | include/protocol.hpp:28-30 | the client's header starts with the bytes of "FRAM", version 1 and length 36 |
| Protocol.ChecksByByte | server/server.cpp:241-261 | the server's checks by the header's bytes: "FRAM", version 1, at most 16777216 payload bytes, in this order |
| Protocol.ServerReadsClientHeader | server/server.cpp:242-283 | for all field values the server's decoding inverts the client's encoding, and refuses only an oversized payload |
| Protocol.AcceptedHeaderReencodes | server/server.cpp:242-283 | re-encoding any accepted header gives its bytes back except the unchecked header_len |
| Protocol.FourCcIsMemory | server/server.cpp:95-102 | the shifts and masks extract the word's bytes in memory order |
| Protocol.FourCcInjective | include/protocol.hpp:100-106 | different pixel formats have different names |
| FrameStream.ParseEncoded | server/server.cpp:236-276 | parsing encoded frames followed by anything returns those frames, then what the rest parses to |
| FrameStream.ParsePrefix | server/server.cpp:236-276 | any cut of the stream yields exactly the frames wholly before the cut, their number included, and refuses none |
| FrameStream.EncodedSize | server/server.cpp:274-275 | a stream's length is the sum of 36 and the payload length over its frames |
| FrameServer.Connection.ReadAll | server/server.cpp:149-172 | succeeds iff enough bytes still arrive, and then returns just those, however the reads cut them |
| FrameServer.Server.ReadFrame | server/server.cpp:236-271 | one round takes exactly the first frame of what is left of the stream, or ends when there is none, for the reason parsing gives |
| FrameServer.Server.Record | server/server.cpp:273-295 | counts the frame and saves its payload under its name; no other file is created, changed or removed |
| FrameServer.Server.HandleClient | server/server.cpp:229-310 | the frames taken, and the reason to stop, are those of the stream up to the stop flag; counters and saved files agree with them, every frame whose save can succeed is saved, and no other file is touched |
| FrameServer.IntactThrough | server/server.cpp:189-196 | saving further frames with new sequence numbers keeps every file saved before, on this or an earlier connection |
| FrameFiles.PadReadsBack | server/server.cpp:189-193 | the zero-padded number reads back as the sequence number, for any width |
| FrameFiles.NameReadsBack | server/server.cpp:189-193 | under a directory of at most 484 characters the file name determines the sequence number |
| FrameFiles.NameShape | server/server.cpp:189-193 | a name that fits the buffer is directory, "/frame_", the number in at least 8 digits with no needless zero, and the extension |
| FrameFiles.ExtensionOfFormat | server/server.cpp:177-187 | the extension for every 32-bit format word: jpg for 0x47504A4D, yuyv for 0x56595559, bgr for 0x33524742, raw otherwise |
| FrameFiles.NameEndsIn | server/server.cpp:177-193 | a file's name ends in .jpg, .yuyv, .bgr or .raw iff its frame's format word is that of this ending, or none of the three for .raw |
| FrameFiles.NamesDistinctIff | server/server.cpp:189-193 | names are distinct for all 64-bit sequence numbers iff the directory has at most 484 characters |
| FrameFiles.LongDirectoryCollides | server/server.cpp:189-193 | beyond that, two given sequence numbers share a file |
| FrameFiles.Disk.SaveFrame | server/server.cpp:195-226 | true means the file holds exactly the payload; false leaves a prefix, or nothing if it could not be opened |
| TlsClient.DelayClosedForm | src/tls_client.cpp:355-360 | with any whole multiplier m the delay after k > 0 failures is min(base * m^k, max) |
| TlsClient.DelayInRange | src/tls_client.cpp:354-361 | with any multiplier of at least 1 the delay stays between base and max and never decreases; a base above max counts only before the first failure |
| TlsClient.DefaultTotalSleep | include/tls_client.hpp:29-31 | total sleep with the default settings: 1000(2^k - 1) ms up to five failures, then 30 s each |
| TlsClient.Client.CreateTcpConnection | src/tls_client.cpp:113-193 | returns a socket iff some address connects; only that socket stays open, and its blocking mode is restored |
| TlsClient.Client.TlsConnect | src/tls_client.cpp:195-279 | connects iff every step succeeds, with fresh backoff; otherwise no handle remains |
| TlsClient.Client.TlsDisconnect | src/tls_client.cpp:281-295 | no socket and no SSL object stays open |
| TlsClient.Client.SslWriteAll | src/tls_client.cpp:297-333 | on success all bytes of the buffer went out in order, on failure a prefix of them, each read when its turn came |
| TlsClient.Client.SendFrame | src/tls_client.cpp:374-398 | from the packet's metadata and the live slot: the whole encoding of the pushed frame, or a prefix of it |
| TlsClient.Client.SendNext | src/tls_client.cpp:384-405 | the frame is entered as sent, or as the one loss of a connection that is then dropped; the packet is freed either way |
| TlsClient.Client.TryConnect | src/tls_client.cpp:347-365 | one attempt: success iff every step succeeds, and otherwise one more failure is counted |
| TlsClient.Client.BackOff | src/tls_client.cpp:354-361 | one more failure: slept time and delay follow the closed form |
| TlsClient.Client.NetworkLoop | src/tls_client.cpp:342-413 | for every script and every schedule of the other threads: wires are framed, the frames consumed are exactly those pop handed out, each sent or lost, counters agree, one packet at a time, no handle survives; every connection but the last lost a frame; without write failures every round from the first that connects asks the queue; with enough rounds that connect the queue is empty at the end |
| TlsClient.Client.OneRound | src/tls_client.cpp:345-409 | a round that starts connected asks the queue whatever its connect script says, and keeps its connection unless a frame is lost |
| TlsClient.ConnectionsAndLosses | src/tls_client.cpp:384-402 | there is at most one connection more than there are lost frames |
| TlsClient.TakenIsSentOrLost | src/tls_client.cpp:384-402 | frames taken = frames sent + losses, and losses never exceed connections |
| Pipeline.SessionTaken | server/server.cpp:229-310 | of one connection, cut anywhere, the server takes exactly the frames wholly inside what arrives, up to its limit, unchanged, and refuses none |
| Pipeline.TakenFromPushes | src/tls_client.cpp:345-406 | from framed sessions that consumed a prefix of what pop handed out, the server takes an ordered, unchanged selection of the calls of push and refuses no header |
| Pipeline.RunCamera | src/tls_client.cpp:342-413 | the network loop run on the shared queue leaves framed sessions that consumed exactly what pop handed out; without write failures no session lost a frame |
| Pipeline.ServeAll | server/server.cpp:229-310 | over all connections in turn: the frames taken and the endings are those of the streams, and every saved file survives the later connections |
| Pipeline.TakenExactly | server/server.cpp:229-310 | over all connections: exactly the first frames of each session that the cut and the limit let through |
| Pipeline.EndToEnd | src/tls_client.cpp:345-406 | camera and server run together, with no hypothesis on sessions: received is exactly the frames wholly inside what arrived of each connection; strictly increasing sequence numbers, each frame that of its call of push, no header refused, saved files intact at the end, all frames accounted for, one connection more than losses at most; with no write failing and connections undisturbed, all that pop handed out arrives; with enough rounds that connect, no frame stays in the queue |
| Pipeline.EndToEndAsBuilt | include/ring_queue.hpp:27-27 | the same for the program's slots of 4194304 bytes and its default settings, with nothing assumed |
| Pipeline.FramesAccountedFor | src/tls_client.cpp:384-404 | the conservation law `Pipeline.EndToEnd` uses: frames offered to the open queue = sent + lost + unallocated + dropped + queued, with at most one loss per connection |
| Pipeline.NoFileOverwritten | server/server.cpp:189-196 | under a directory of at most 484 characters every frame saved successfully on any connection of one client run still has exactly its payload in its file at the end |
| Pipeline.SentFramesArrive | src/tls_client.cpp:400-401 | of a connection that is not cut off the server gets every frame the client counted |
| Pipeline.NothingLostWithoutFailures | src/tls_client.cpp:367-406 | sessions without a loss whose wires arrive whole bring the server everything consumed, in order; `Pipeline.AllArrive` and `Pipeline.EndToEnd` derive this from failure-free scripts |
| Pipeline.AllArrive | src/tls_client.cpp:367-406 | undisturbed connections of a run without losses bring the server exactly what pop handed out |
| Logger.LogMessage.constructor | include/log.hpp:88-98 | the prefix is in the buffer of 512 characters, cut to its size; a disabled message is empty |
| Logger.LogMessage.Append | include/log.hpp:145-164 | the buffer keeps holding the first 510 characters of everything inserted; a failed conversion changes nothing |
| Logger.LogMessage.AppendChar | include/log.hpp:124-127 | the same for a single character |
| Logger.LogMessage.Finish | include/log.hpp:100-114 | emits those characters and a newline, with the NUL inside the 512 bytes |
| Logger.LogMessage.FinishWithErrno | include/log.hpp:173-177 | the error description is the last thing on the line |
| Logger.Log | include/log.hpp:84-165 | a statement emits the first 510 characters of the unbounded concatenation and a newline |

## Left out

- Camera capture and JPEG encoding: a foreign library; the capture thread is any sequence of pushes with consecutive numbers.
- TLS handshake, certificates, ciphers, DNS and polling: only their outcomes and the handles they open are modelled.
- Progress in real time: retries are scripts of any finite length, so no claim is made about endless retries; a timed wait's deadline arithmetic is a nondeterministic expiry.
- TlsClient.DelayClosedForm: products are exact reals before the fraction is dropped; the rounding of a float product is not modelled, and a multiplier that is not whole has no closed form.
- Wrap-around at 2^64 of the counters and of the sequence number.
- A pop returns at once or sleeps: how long a sleep lasts is not modelled, so a wait may expire at any moment of it.
- Several consumers or several producers at once: the program runs one of each.
- The queue's destructor, and packets that outlive their queue.
- Clearing the server's payload buffer at the end of a connection, console output, option parsing, log level switching, and the log file itself.
- RingQueue.RingQueue.constructor: requires that the size of the mapped region fits 64 bits; the code does not check the multiplication.
- FrameServer.Server.HandleClient: reading a connection ends only where its bytes end; a failure earlier is the same stream cut there.
