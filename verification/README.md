# A verified model of the local RPC stack

This project models the layers of a local (pipe or Unix-socket) RPC service and the worker pool
behind it, and proves what they promise. It stands beside the C++ sources, follows their branches
and constants; `dafny verify dfyconfig.toml` checks the whole of it. Nothing was executed: every claim is
about the model.

| part | modules | shape of the model |
|---|---|---|
| events on POSIX (`rpevents.cpp`) | `EventModel`, `EventShape`, `EventTally`, `EventRefs`, `EventSeen`, `EventLedger`, `EventOrder`, `EventKnot`, `EventLaws`, `EventLosses`, `EventFlags` | a state machine: one step per critical section, mutex operation or atomic access; any number of events, threads and multi-waits |
| thread pool (`rthreadpool.cpp`, `rbasejob.cpp`) | `PoolModel`, `PoolHandOff`, `PoolThreads`, `PoolOrder`, `PoolJobs`, `PoolRuns`, `PoolFlags`, `PoolQueues` | a state machine over semaphores, the two auto-reset events, the ordered waiting set, the doing map, the clear queue and the thread lists |
| framed transport (`ipcbase`) | `Wire`, `RingBuffers`, `LocalSockets`, `Link`, `RpcBuffers`, `ClientDecoder`, `ClientAlone`, `ClientChannels`, `ClientRequests`, `ServerDecoder`, `ServerConnections`, `EndToEnd`, `Rpc`, `RpcMessages`, `Connections` | classes with the fields of the source, each method proved against a function on values; `Link` and `Rpc` are state machines over those functions, for one direction at the level of bytes and for both directions at the level of frames, and `Connections` puts the two together |
| pending handlers (`ripcqcservices*`) | `Handlers` | a class over the two maps, and runs of calls |
| log text (`logger`) | `Digits`, `LogText` | the growing array and the in-place printers |
| checksums (`boost/crc.hpp`) | `CrcWords`, `Crc` | words as sequences of bits; both computers as classes with their tables and loops |

What the main results say, part by part:

* Events. Over every run, reference counts are exact and no freed record is touched; signals of
  auto-reset events are neither made up nor lost by `SetEvent`; a wait-all ends exactly when each
  index has been seen once; and multi-waits can deadlock with `SetEvent` if and only if their lists
  contain a cyclic order, which the fixed order used by the pool rules out. A multi-wait can take an
  auto-reset signal that it does not report; `EventLosses.SignalLostIff` says for which lists, kinds
  of wait and time-outs, and for no others.
* Pool. A single token goes round between dispatcher, event, worker and reply semaphore. Until
  `stop()` it is never lost, and a waiting job with an idle worker always gets on; `stop()` may take
  it from a worker once, which strands the job and is the only thing that can. The dispatcher still
  ends in the destructor. Every job is deleted exactly once, and jobs are taken by priority, then
  submission, over whole runs. `cancelJob` waits on the semaphore under the lock; `CancelBlocksIff`
  says exactly when that wait is for ever.
* Transport. The decoders of client and server, the reference decoder and the encoder fit together
  for every way of cutting the bytes; from the caller's frame to the delivered frame nothing is lost,
  reordered or stranded; replies reach the callback of their own request, once, over two links byte
  by byte. The exceptions are proved with their exact conditions: a trailing header without payload
  waits; a client without processor differs as soon as a frame for one is served, and then depends on
  the cutting; the receive buffer grows correctly up to 2^32 - 4096 bytes; the server serves a stream
  exactly if no chunk exceeds 32 MB together with what was left before it; replies match as long as no
  request gets an id that is still pending; and a request refused half-way leaves its first slices
  in the stream, which then eat the frames behind them.
* Log text. Any run of appends leaves the first megabyte; every 64-bit integer prints exactly. An
  integer is dropped exactly when fewer than 32 characters are free.
* Checksums. The table-driven CRC is the bitwise CRC, for every width from 8 bits, polynomial,
  initial remainder, final mask and choice of reflections.

Where the code and its comments disagree the model follows the code: `ripcconstant.h` limits a
message to less than 2^24 bytes, but the only limit in the code is the server's buffer guard of 2^25;
`rthreadpool.h` promises that the number of threads stays above the minimum, which two finishing
workers can break unless the minimum is the maximum (`PoolRuns.MinimumBrokenIff`); `rlocalsocket.cpp` asserts that the start counter is
below the end counter, which fails at the wrap (`RingBuffers.DebugAssertIff`).

## Model

| member | source | states |
|---|---|---|
| `EventLaws.RunKeepsInv` | rpc_srv_demo_linux/threadpool/rpevents.cpp:181-521 | the shape, reference, seen, quiet, wake-up and ledger invariants hold in every state of every run of waits, sets and resets, under every interleaving at lock granularity |
| `EventLaws.WaitRecordLifetime` | rpc_srv_demo_linux/threadpool/rpevents.cpp:62-75 | RefCount of a wait record is the caller's own share plus the registered entries naming it over all events, and the record is alive exactly while that sum is positive |
| `EventLaws.NeverTouchedAfterFree` | rpc_srv_demo_linux/threadpool/rpevents.cpp:205-328 | no step reads or writes a freed record, whoever was the last to drop its reference; so it is freed once |
| `EventLaws.NoSleeperBesideSignal` | rpc_srv_demo_linux/threadpool/rpevents.cpp:242-264 | outside its critical sections a signalled event, auto or manual, has no registered waiter |
| `EventLaws.NoLostWakeup` | rpc_srv_demo_linux/threadpool/rpevents.cpp:293-311 | a thread asleep in a multi-wait that is already satisfied has been signalled, or a SetEvent is about to signal it |
| `EventLaws.SignalsConserved` | rpc_srv_demo_linux/threadpool/rpevents.cpp:364-454 | acquisitions of an auto-reset event plus one if it is signalled balance SetEvent calls plus its initial state, the rest being signals absorbed by ResetEvent or by an event already signalled |
| `EventLaws.SetEventHandsOver` | rpc_srv_demo_linux/threadpool/rpevents.cpp:385-446 | a SetEvent on an unsignalled auto-reset event credits exactly one wait that is still waiting, at the index it registered, or leaves the event signalled and credits nobody |
| `EventFlags.FlagIff` | rpc_srv_demo_linux/threadpool/rpevents.cpp:359-529 | after any step an event is signalled exactly if the step raised it, SetEvent on a manual-reset event as it begins and on an auto-reset one as it finds nobody, or it was signalled and the step did not lower it, as ResetEvent and a wait that takes an auto-reset event do |
| `EventFlags.ResetClears` | rpc_srv_demo_linux/threadpool/rpevents.cpp:523-529 | over every run: ResetEvent can always be called, the event is not signalled afterwards, and its entries, its holder, every other event, every record and every thread are as before |
| `EventFlags.ResetHolds` | rpc_srv_demo_linux/threadpool/rpevents.cpp:523-529 | after ResetEvent, whatever waits and other SetEvents do, the event stays down and no scan and no single wait takes it until a SetEvent on it raises it |
| `EventFlags.GrantNeeds` | rpc_srv_demo_linux/threadpool/rpevents.cpp:221-258 | over every run: a multi-wait takes an event in its own scan only while that is signalled, and is granted one otherwise only by a SetEvent on it |
| `EventFlags.LookDecides` | rpc_srv_demo_linux/threadpool/rpevents.cpp:242-264 | a scan decides after it has been past every entry; it takes a signalled event, and registers behind the others at any other |
| `EventFlags.PurgeIff` | rpc_srv_demo_linux/threadpool/rpevents.cpp:234-239 | a scan removes an entry, with its reference, exactly if the wait of that entry is over |
| `EventFlags.SetEventEnds` | rpc_srv_demo_linux/threadpool/rpevents.cpp:359-521 | a SetEvent returns: whatever the other threads do meanwhile it takes no more of its own steps than the entries of its event allow |
| `EventLosses.SignalLostIff` | rpc_srv_demo_linux/threadpool/rpevents.cpp:205-515 | for any list, any kinds of its events, either kind of wait and any time-out: some run ends with such a wait over that took an auto-reset signal it does not report, exactly if the list names an auto-reset event and the time-out is finite and not zero, or it is zero and the wait is for all of several events, or there is none and the wait is for any of a list that names a manual-reset event too |
| `EventLosses.LossNeeds` | rpc_srv_demo_linux/threadpool/rpevents.cpp:285-328 | conversely no other wait loses a signal in any run; a zero-time-out wait-any in particular holds its record until its outcome is settled |
| `EventLaws.WaitAllCounting` | rpc_srv_demo_linux/threadpool/rpevents.cpp:242-272 | until a wait-all ends, EventsLeft is the events not yet examined plus the registered entries still due, and never negative; on success each index was seen signalled exactly once |
| `EventLaws.DeadlockIffKnot` | rpc_srv_demo_linux/threadpool/rpevents.cpp:210-265 | for any set of event lists used by multi-waits: some reachable state has a cycle of threads waiting on event and record mutexes if and only if some set of events has each member listed before another member |
| `EventLaws.OrderedNeverDeadlocks` | rpc_srv_demo_linux/threadpool/rthreadpool.cpp:497-508 | with every list in one global order, as the pool does, no reachable state is a deadlock, and beside a blocked thread some unblocked thread has a step |
| `EventLaws.DuplicateIsKnot` | rpc_srv_demo_linux/threadpool/rpevents.cpp:210-265 | a list that names an event twice is enough for a deadlock |
| `EventKnot.KnotDeadlocks` | rpc_srv_demo_linux/threadpool/rpevents.cpp:359-515 | from every such set of events a run is constructed that ends in a deadlock |
| `EventOrder.DeadlockNeedsKnot` | rpc_srv_demo_linux/threadpool/rpevents.cpp:210-515 | conversely the events held in a deadlock form such a set |
| `EventOrder.OrderedNoKnot` | rpc_srv_demo_linux/threadpool/rthreadpool.cpp:497-508 | increasing lists contain no such set |
| `EventShape.ShapeStep` | rpc_srv_demo_linux/threadpool/rpevents.cpp:181-521 | every step keeps holders, program counters and registered entries consistent |
| `EventRefs.RefsStep` | rpc_srv_demo_linux/threadpool/rpevents.cpp:371-436 | every step keeps the reference counts exact |
| `EventSeen.SeenStep` | rpc_srv_demo_linux/threadpool/rpevents.cpp:242-272 | every step keeps the accounts of what each wait has seen |
| `EventLedger.LedgerStep` | rpc_srv_demo_linux/threadpool/rpevents.cpp:95-145 | every step keeps the balance of signals |
| `Wire.Le32RoundTrip` | ripcqccomponent/ipcbase/ripcclientchannel.cpp:277-287 | a 32-bit header field reads back as written |
| `Wire.EncodeBytes` | ripcqccomponent/ipcbase/ripcclientchannel.cpp:277-283 | every byte of a frame: "ripc", then byte i of length, version, cid and sid is the digit of that field to the base 256 with weight 256^i, then the payload |
| `Wire.OneFrame` | ripcqccomponent/ipcbase/ripcclientchannel.cpp:277-283 | one frame in numbers |
| `Wire.LookIff` | ripcqccomponent/ipcbase/ripcclientchannel.cpp:419-466 | a receiver waits, gives up or takes a frame, and which, exactly by the bytes it has: fewer than 21, not "ripc", a length field below 20, fewer than that length, or all of it |
| `Wire.LookEncode` | ripcqccomponent/ipcbase/ripcconstant.h:35-41 | an encoded frame followed by any byte, its own payload or the next frame, is recognised with all its fields, and the rest is untouched |
| `Wire.LookExact` | ripcqccomponent/ipcbase/ripcclientchannel.cpp:437-466 | printing a recognised frame gives back exactly the bytes it was read from |
| `Wire.LookStable` | ripcqccomponent/ipcbase/ripcclientchannel.cpp:419-466 | what has been decided about a frame is not changed by later bytes |
| `Wire.ParseConcat` | ripcqccomponent/ipcbase/ripcclientchannel.cpp:415-420 | decoding in two goes, the second on the leftover of the first, is decoding at once, also when the bytes are malformed |
| `Wire.RoundTrip` | ripcqccomponent/ipcbase/ripcclientchannel.cpp:269-287 | decoding the concatenated encodings of frames gives the frames back in order, up to a trailing header without payload, which stays as the leftover |
| `Wire.RoundTripIff` | ripcqccomponent/ipcbase/ripcclientchannel.cpp:419 | all frames come back exactly if there are none or the last one carries a payload |
| `Wire.PrefixParses` | ripcqccomponent/ipcbase/ripcclientchannel.cpp:415-577 | whatever part of a sent stream has arrived is never taken for malformed, and decodes to a prefix of the frames sent |
| `Wire.ChunkIndependence` | ripcqccomponent/ipcbase/ripcclientchannel.cpp:415-420 | a decoder that keeps its leftover computes the same frames and leftover for every way of cutting the bytes |
| `Wire.SlicesFit` | ripcqccomponent/ipcbase/ripcclientchannel.cpp:289-301 | the slices of a message are 1 to 2^18 bytes long and join to the message |
| `Wire.SliceAt` | ripcqccomponent/ipcbase/ripcclientchannel.cpp:289-301 | slice i starts at byte i * 2^18 and is full except perhaps the last |
| `RingBuffers.RingBuffer.Contents` | ripcqccomponent/ipcbase/rlocalsocket.cpp:97-157 | the messages between the two wrapping counters, oldest first; their number is the difference modulo 2^32 |
| `RingBuffers.RingBuffer.constructor` | ripcqccomponent/ipcbase/rlocalsocket.cpp:105 | a new buffer is empty |
| `RingBuffers.RingBuffer.Init` | ripcqccomponent/ipcbase/rlocalsocket.cpp:107-111 | empties the buffer |
| `RingBuffers.RingBuffer.IsEmpty` | ripcqccomponent/ipcbase/rlocalsocket.cpp:135-138 | true exactly for an empty queue, wherever the counters are |
| `RingBuffers.RingBuffer.IsFull` | ripcqccomponent/ipcbase/rlocalsocket.cpp:140-148 | true exactly for 1024 messages, also across the wrap of the counters |
| `RingBuffers.RingBuffer.PushMessage` | ripcqccomponent/ipcbase/rlocalsocket.cpp:118-123 | appends to the queue and changes no other message, through the wrap of the counters and of the slots |
| `RingBuffers.RingBuffer.PopMessage` | ripcqccomponent/ipcbase/rlocalsocket.cpp:126-133 | removes and returns the oldest message and changes no other |
| `RingBuffers.DebugAssertIff` | ripcqccomponent/ipcbase/rlocalsocket.cpp:128 | the debug assertion on the counters holds for a non-empty buffer exactly if they have not wrapped between the two |
| `RingBuffers.SlotWraps` | ripcqccomponent/ipcbase/rlocalsocket.cpp:120-129 | slots follow the counters through 2^32, because 1024 divides it |
| `LocalSockets.LocalSocket.constructor` | ripcqccomponent/ipcbase/rlocalsocket.cpp:249-265 | a new socket is unconnected, with an empty queue |
| `LocalSockets.LocalSocket.Disconnect` | ripcqccomponent/ipcbase/rlocalsocket.cpp:405-426 | the socket is unconnected afterwards and writes no more |
| `LocalSockets.LocalSocket.Write` | ripcqccomponent/ipcbase/rlocalsocket.cpp:464-491 | -1 and no effect if the socket is not valid or the queue full; otherwise the chunk is queued and the semaphore raised, up to its maximum |
| `LocalSockets.LocalSocket.SendSlice` | ripcqccomponent/ipcbase/ripcclientchannel.cpp:289-293 | one slice of a message is queued, or the loop gives up |
| `LocalSockets.LocalSocket.SendSliced` | ripcqccomponent/ipcbase/ripcservertoclientchannelprivate.cpp:211-224 | all slices of a message are queued in order, or on a full queue the first ones that fit; true exactly if all fit |
| `LocalSockets.LocalSocket.DoWriteMessage` | ripcqccomponent/ipcbase/rlocalsocket.cpp:640-706 | writes the oldest chunk if nothing is in flight; drops an empty or oversized one; a refused write ends the connection and counts as not written |
| `LocalSockets.TurnIff` | ripcqccomponent/ipcbase/rlocalsocket.cpp:640-706 | one turn of the write loop takes the oldest chunk off the queue and writes it exactly if it has 1 to 2^18 bytes; if that is refused the socket is unconnected |
| `LocalSockets.RefusedEnds` | ripcqccomponent/ipcbase/rlocalsocket.cpp:685-695 | after a refused write the socket takes no message and writes nothing, whatever is queued |
| `LocalSockets.TakesWhen` | ripcqccomponent/ipcbase/rlocalsocket.cpp:450-491 | messages are queued exactly while the socket is connecting or connected |
| `LocalSockets.LocalSocket.CompletedWriteRoutine` | ripcqccomponent/ipcbase/rlocalsocket.cpp:966-1002 | a complete write ends the flight, a partial one does not; an error leaves the socket unconnected with the flight unended, so that nothing is written any more |
| `LocalSockets.LocalSocket.OnToken` | ripcqccomponent/ipcbase/rlocalsocket.cpp:873-877 | one semaphore count is spent on one turn of the write loop, whether or not the write is accepted |
| `LocalSockets.LocalSocket.OnIoCompletion` | ripcqccomponent/ipcbase/rlocalsocket.cpp:207-246 | after a completion the write loop is turned once if nothing is in flight, whether or not the write is accepted |
| `Link.NoStrandedChunk` | ripcqccomponent/ipcbase/rlocalsocket.cpp:464-491 | over every run without failing writes: at most one write is in flight, and a non-empty queue means one is in flight or the worker has been or is about to be notified, also when the semaphore is at its maximum |
| `Link.NoChunkDropped` | ripcqccomponent/ipcbase/rlocalsocket.cpp:661-679 | every turn of the write loop in every run either changes nothing or writes exactly the oldest chunk: the drop branches are not taken |
| `Link.BytesInOrder` | ripcqccomponent/ipcbase/rlocalsocket.cpp:640-706 | chunks written, queued and still to be queued join to the encodings of all messages, in order |
| `Link.StreamSafety` | ripcqccomponent/ipcbase/ripcclientchannel.cpp:415-581 | over every interleaving of slicing, queueing, writing, chunking and decoding, the frames delivered are a prefix, in order and unchanged, of the frames sent |
| `Link.QuietMeansDelivered` | ripcqccomponent/ipcbase/rlocalsocket.cpp:852-926 | when no step is left, all frames have been delivered but a final header without payload, which is the leftover |
| `Link.EverythingArrives` | ripcqccomponent/ipcbase/rlocalsocket.cpp:852-926 | from every reachable state every run of internal steps is bounded, and one that cannot go on has delivered everything |
| `Link.WorkShrinks` | ripcqccomponent/ipcbase/rlocalsocket.cpp:852-926 | each internal step uses up some of a bounded amount of work |
| `Link.EmptyChunkStrands` | ripcqccomponent/ipcbase/rlocalsocket.cpp:666-672 | why senders must not queue empty chunks: one between two others leaves the last waiting with nothing in flight and no count |
| `Link.WriteIsPushAndRelease` | ripcqccomponent/ipcbase/rlocalsocket.cpp:464-491 | the two steps of a write in the link are together what the method `write` does |
| `Link.CompletionWrites` | ripcqccomponent/ipcbase/rlocalsocket.cpp:207-246 | a read or write completion turns the loop once: with nothing in flight the oldest queued chunk reaches the pipe, otherwise nothing does |
| `RpcBuffers.GrowthIff` | ripcqccomponent/ipcbase/ripcclientchannel.cpp:82-93 | the appended bytes fit behind the old ones exactly if they fit without growing or the new size is below 2^32 - 4096 |
| `RpcBuffers.GrowthWraps` | ripcqccomponent/ipcbase/ripcclientchannel.cpp:86 | sizes on both sides of that bound: the capacity becomes 0, and is right |
| `RpcBuffers.RpcBuffer.constructor` | ripcqccomponent/ipcbase/ripcclientchannel.cpp:70-77 | 8192 bytes, empty |
| `RpcBuffers.RpcBuffer.Append` | ripcqccomponent/ipcbase/ripcclientchannel.cpp:82-96 | the bytes are added behind the others, whether or not the buffer grows, and the read position stays |
| `RpcBuffers.RpcBuffer.Read` | ripcqccomponent/ipcbase/ripcclientchannel.cpp:101-111 | succeeds exactly if enough unread bytes are there, and then takes them off the front of what is ahead |
| `RpcBuffers.RpcBuffer.Unread` | ripcqccomponent/ipcbase/ripcclientchannel.cpp:112-115 | everything read since the last commit is ahead again, in front of what was still unread |
| `RpcBuffers.RpcBuffer.Commit` | ripcqccomponent/ipcbase/ripcclientchannel.cpp:116-129 | drops bytes from the front, or everything if asked for more than there is |
| `RpcBuffers.RpcBuffer.Clear` | ripcqccomponent/ipcbase/ripcclientchannel.cpp:131-136 | empties the buffer |
| `ClientDecoder.Drain` | ripcqccomponent/ipcbase/ripcclientchannel.cpp:419-580 | the decoding loop as a function; it ends on every input because each turn shortens what is buffered or what is unread |
| `ClientDecoder.DrainIsReference` | ripcqccomponent/ipcbase/ripcclientchannel.cpp:415-580 | with a processor, the byte loop does what decoding with the reference decoder and serving the frames does, also where it closes |
| `ClientDecoder.ClientChunkIndependence` | ripcqccomponent/ipcbase/ripcclientchannel.cpp:415-580 | with a processor, every way of cutting the bytes leaves the client in the same state with the same callbacks run in the same order |
| `ClientDecoder.ServeAnswers` | ripcqccomponent/ipcbase/ripcclientchannel.cpp:544-577 | a list of frames is served without closing exactly if every reply is to a pending request and none is answered twice; then each frame has its effect, each reply runs the callback registered under its id, and those ids leave both maps |
| `ClientDecoder.ClosesIff` | ripcqccomponent/ipcbase/ripcclientchannel.cpp:426-557 | exactly when a stream, however cut, makes the client close |
| `ClientDecoder.CloseForgets` | ripcqccomponent/ipcbase/ripcclientchannel.cpp:367-379 | a client that a stream makes close keeps no byte, no callback and no buffer, and later bytes change nothing |
| `ClientDecoder.ServeCounts` | ripcqccomponent/ipcbase/ripcclientchannel.cpp:476 | the client counts the frames it has served modulo 2^32 |
| `ClientAlone.AloneIff` | ripcqccomponent/ipcbase/ripcclientchannel.cpp:478-543 | for any stream, however cut: a client without a processor ends up like one with a processor, log included, exactly if no frame served before a close is meant for the processor |
| `ClientAlone.PushThenReply` | ripcqccomponent/ipcbase/ripcclientchannel.cpp:563-564 | without a processor the cutting matters: a message for the processor and a reply in one chunk get the reply answered, and its length cut off the message; in two chunks the channel closes and the reply is never looked at |
| `ClientAlone.LonePushConsumedIff` | ripcqccomponent/ipcbase/ripcclientchannel.cpp:480-542 | a lone frame for the processor is consumed exactly if one is set; otherwise the client closes |
| `ClientChannels.BuildMessage` | ripcqccomponent/ipcbase/ripcclientchannel.cpp:272-287 | the bytes laid out field by field are the encoding of the frame |
| `ClientChannels.ClientChannel.constructor` | ripcqccomponent/ipcbase/ripcclientchannel.cpp:160-165 | a new channel has no requests and no processor |
| `ClientChannels.ClientChannel.SendAndRecvMessage` | ripcqccomponent/ipcbase/ripcclientchannel.cpp:317-336 | a request gets the next id, skipping 0, is registered under it and its frame queued; if the channel is not good or the slices do not all fit, the callback runs at once and nothing stays registered |
| `ClientChannels.ClientChannel.SendMessage` | ripcqccomponent/ipcbase/ripcclientchannel.cpp:267-309 | queues the frame of the current request, or takes the request back |
| `ClientRequests.RequestKeptIff` | ripcqccomponent/ipcbase/ripcclientchannel.cpp:267-309 | a request stays registered exactly if its slices of 2^18 bytes fit beside the queued ones; otherwise its callback has run once without a reply and its id is free |
| `ClientRequests.QueuedBytes` | ripcqccomponent/ipcbase/ripcclientchannel.cpp:285-300 | the socket's queue gains exactly the bytes of the frame, or for a refused request its first slices, which then stay in the stream |
| `ClientRequests.TornFrameSwallows` | ripcqccomponent/ipcbase/ripcclientchannel.cpp:285-309 | after the slices of a refused request the receiver takes whatever is sent next for the rest of its payload, and only that, until the announced length is reached |
| `ClientChannels.ClientChannel.SendReply` | ripcqccomponent/ipcbase/ripcclientchannel.cpp:179-217 | queues the answer to a request of the server |
| `ClientChannels.ClientChannel.OnRecvData` | ripcqccomponent/ipcbase/ripcclientchannel.cpp:415-581 | the loop computes the decoding function, keeps the buffer sound, and terminates |
| `ClientChannels.ClientChannel.NextFrame` | ripcqccomponent/ipcbase/ripcclientchannel.cpp:429-458 | one turn of that loop up to the payload |
| `ClientChannels.ClientChannel.ReadPayload` | ripcqccomponent/ipcbase/ripcclientchannel.cpp:466-476 | one turn of that loop, the payload |
| `ClientChannels.ClientChannel.OnFrame` | ripcqccomponent/ipcbase/ripcclientchannel.cpp:478-577 | one turn of that loop, what is done with the frame |
| `ClientChannels.ClientChannel.Close` | ripcqccomponent/ipcbase/ripcclientchannel.cpp:367-379 | the buffer, both maps and the sequence number are cleared and the socket disconnected |
| `ServerDecoder.DrainDecodes` | ripcqccomponent/ipcbase/ripcservertoclientchannelprivate.cpp:111-183 | the server loop handles the frames of the reference decoder up to a goodbye, and finishes exactly for a goodbye or malformed bytes |
| `ServerDecoder.ServerChunkIndependence` | ripcqccomponent/ipcbase/ripcservertoclientchannelprivate.cpp:96-183 | within the size guard, every way of cutting the bytes gives the same calls, the same verdict and the same rest |
| `ServerDecoder.FrameServedIff` | ripcqccomponent/ipcbase/ripcservertoclientchannelprivate.cpp:104-109 | a frame on a fresh connection, however cut, is served exactly if it is at most 32 MB long |
| `ServerDecoder.StreamServedIff` | ripcqccomponent/ipcbase/ripcservertoclientchannelprivate.cpp:96-183 | a well-formed stream without a goodbye, cut in any way, has all its frames served and its leftover kept exactly if no chunk exceeds 32 MB together with what is left of the chunks before; otherwise the connection finishes |
| `ServerDecoder.TogetherTooLong` | ripcqccomponent/ipcbase/ripcservertoclientchannelprivate.cpp:104-109 | two frames of which each is within the limit but not both together are served if they come in two chunks and finish the connection unserved if they come in one |
| `ServerDecoder.TwentyMegabytes` | ripcqccomponent/ipcbase/ripcservertoclientchannelprivate.cpp:104-109 | two frames of 20 MB are such a pair |
| `ServerDecoder.DecodersAgree` | ripcqccomponent/ipcbase/ripcservertoclientchannelprivate.cpp:96-183 | fed the same bytes cut in any two ways, the two decoders handle the same frames and keep the same undecoded rest |
| `ServerDecoder.BeforeByeMeans` | ripcqccomponent/ipcbase/ripcservertoclientchannelprivate.cpp:144-152 | the frames served before a goodbye contain none, and the next one is it |
| `ServerDecoder.GoodbyeEndsIff` | ripcqccomponent/ipcbase/ripcservertoclientchannelprivate.cpp:144-152 | a well-formed stream within the guard ends the connection exactly if some frame with id 0 bears the goodbye text |
| `EndToEnd.ClientGetsWhatWasSent` | ripcqccomponent/ipcbase/ripcclientchannel.cpp:415-581 | over every run of the link and every cutting of the bytes that have arrived, a client with a processor, sent only replies it waits for, has handled exactly the frames delivered, a prefix of those sent, each with its effect and in order, and buffers the rest |
| `EndToEnd.ServerGetsWhatWasSent` | ripcqccomponent/ipcbase/ripcservertoclientchannelprivate.cpp:96-183 | the same for the server, within its size guard and without a goodbye |
| `ServerConnections.ServerConnection.constructor` | ripcqccomponent/ipcbase/ripcservertoclientchannelprivate.cpp:27-43 | a new connection has received nothing |
| `ServerConnections.ServerConnection.OnRecvData` | ripcqccomponent/ipcbase/ripcservertoclientchannelprivate.cpp:96-100 | the chunk is added and the buffer processed |
| `ServerConnections.ServerConnection.ProcessBuffer` | ripcqccomponent/ipcbase/ripcservertoclientchannelprivate.cpp:102-183 | the loop computes the processing function and terminates |
| `ServerConnections.ServerConnection.NextFrame` | ripcqccomponent/ipcbase/ripcservertoclientchannelprivate.cpp:113-182 | one turn of that loop |
| `ServerConnections.ServerConnection.SendMessage` | ripcqccomponent/ipcbase/ripcservertoclientchannelprivate.cpp:186-232 | the reply is queued under the id of its request with the next server sequence number; if its slices do not all fit the connection finishes |
| `ServerConnections.ServerConnection.SendBuffer` | ripcqccomponent/ipcbase/ripcservertoclientchannelprivate.cpp:234-268 | a message that is laid out already is queued the same way |
| `ServerConnections.ServerToClientChannel.constructor` | ripcqccomponent/ipcbase/ripcservertoclientchannelprivate.cpp:279-289 | request ids of the server start behind 1 |
| `ServerConnections.ServerToClientChannel.SendMessage` | ripcqccomponent/ipcbase/ripcservertoclientchannel.cpp:113-135 | a message without reply is a frame with id 0 |
| `ServerConnections.ServerToClientChannel.SendAndRecvMessage` | ripcqccomponent/ipcbase/ripcservertoclientchannel.cpp:143-181 | a request to the client gets the next id and the client-mode version; if the connection is not good the callback runs at once |
| `ServerConnections.ServerToClientChannel.OnReceivedBuffer` | ripcqccomponent/ipcbase/ripcservertoclientchannel.cpp:183-210 | an answer runs the callback registered under its id, which stays registered |
| `ServerConnections.EveryAnswerRuns` | ripcqccomponent/ipcbase/ripcservertoclientchannel.cpp:183-210 | over any run of answers: a callback of the server runs once for every answer that bears an id of its own, not once only, since it stays registered |
| `ServerConnections.AnswersGivenAsArrived` | ripcqccomponent/ipcbase/ripcservertoclientchannel.cpp:183-210 | over any run of answers: a callback of the server is given, in its own buffer, the payloads of the answers with its ids, all of them and in order |
| `Rpc.EachRequestInOnePlace` | ripcqccomponent/ipcbase/ripcclientchannel.cpp:317-336 | over every run, of any length, without failing writes in which no request gets an id that is still pending: each id with a callback is in exactly one of request stream, server processing and reply stream, no other id is anywhere, and the two maps have equal keys without 0 |
| `Rpc.CallbacksGetTheirReplies` | ripcqccomponent/ipcbase/ripcclientchannel.cpp:544-577 | over every such run: a request is answered at most once, after its own buffer has been filled with the reply computed for it, and every issued request is either answered or registered |
| `Rpc.NeverUnexpected` | ripcqccomponent/ipcbase/ripcclientchannel.cpp:546-557 | over every such run the branches that close the channel for an unknown id are not taken |
| `Rpc.IdleMeansAnswered` | ripcqccomponent/ipcbase/ripcservertoclientchannelprivate.cpp:154-201 | over every such run: when both streams and the server are idle, every request has been answered |
| `Rpc.GuardExact` | ripcqccomponent/ipcbase/ripcclientchannel.cpp:328-335 | one more request keeps the whole invariant exactly if the next id is not pending |
| `Rpc.FewSendsGuarded` | ripcqccomponent/ipcbase/ripcclientchannel.cpp:328-332 | runs with fewer than 2^32 requests never meet a pending id |
| `Rpc.WrapMismatches` | ripcqccomponent/ipcbase/ripcclientchannel.cpp:328-335 | a run of 2^32 requests, the first of them still pending: the last one takes its id and its place, and its callback gets the reply to the first |
| `RpcMessages.MessagesHandledAsSent` | ripcqccomponent/ipcbase/ripcclientchannel.cpp:478-543 | over every run: the messages handed to the processor of the client are those the server has pushed, the requests handed to it those the server has asked, under their ids, and the answers handed to the server those the client has given, under theirs; each once, in order, and with no other between, less those on their way |
| `Connections.ConnectionRefinesRpc` | ripcqccomponent/ipcbase/ripcclientchannel.cpp:267-336 | two links with their write loops, pipes and byte decoders on both ends, in every interleaving: what they do is a run of request and reply on frames with the same messages in the same order, whose streams are the frames submitted and not delivered |
| `Connections.RepliesMatchOverBytes` | ripcqccomponent/ipcbase/ripcclientchannel.cpp:415-580 | so, over every run of the connection at the level of bytes: neither side closes, and the callbacks run are those of different requests, each with the reply computed for its own |
| `Connections.MessagesArriveAsSent` | ripcqccomponent/ipcbase/ripcclientchannel.cpp:478-543 | the same as RpcMessages.MessagesHandledAsSent over every run at the level of bytes |
| `Connections.HeadersAsSent` | ripcqccomponent/ipcbase/ripcservertoclientchannelprivate.cpp:186-201 | over every run: the replies of the server are numbered 0, 1, 2 and so on modulo 2^32, and the requests of the client bear the ids they were given, with version and number 0 |
| `Connections.QuietMeansAnswered` | ripcqccomponent/ipcbase/ripcservertoclientchannelprivate.cpp:154-201 | when both links are quiet, the server has no work and the last frame each way has a payload, every request has been answered |
| `Handlers.EveryHandlerAnsweredOrPending` | ripcqccomponent/ripcqcserviceshost.cpp:113-206 | over every run, also with repeated ids: a handler has been invoked as often as it was handed in, less the entries in which it still waits |
| `Handlers.FirstHandlerStays` | ripcqccomponent/ripcqcservicesqcdataproxy.cpp:19-55 | the first handler registered under an id stays until the result for that id, whatever else happens |
| `Handlers.ResultAnswersItsHandler` | ripcqccomponent/ripcqcserviceshost.cpp:161-192 | the first authorisation result for an id answers the first handler registered under it, with status 1 if authorised and else 0 and with the same text, and removes it |
| `Handlers.LoginAnswersItsHandler` | ripcqccomponent/ripcqcserviceshost.cpp:194-206 | the same for log-in results |
| `Handlers.DuplicateGetsLatest` | ripcqccomponent/ripcqcserviceshost.cpp:113-122 | over every run: a request whose id is pending is answered at once with the status reported last, by a result or by a notice that was the first since a connection came in, and displaces nobody |
| `Handlers.CacheIsLatest` | ripcqccomponent/ripcqcserviceshost.cpp:43-110 | over every run: the cached status is the one reported last in that sense, 1 for authorised and else 0, and the clients have been told of exactly the notices that report |
| `Handlers.DuplicateLoginRefused` | ripcqccomponent/ripcqcserviceshost.cpp:137-146 | over every run: a log-in whose id is pending is answered at once with code 0x103, and nothing else changes |
| `Handlers.NewRequestWaits` | ripcqccomponent/ripcqcserviceshost.cpp:113-134 | over every run: a request with a new id waits under it, and is passed on exactly if there is a runner |
| `Handlers.StrayResults` | ripcqccomponent/ripcqcserviceshost.cpp:161-206 | over every run: a result nobody waits for answers nobody; an authorisation result still sets the cached status |
| `Handlers.PendingWasAsked` | ripcqccomponent/ripcqcserviceshost.cpp:124-133 | whatever waits was passed on to the service |
| `Handlers.ServicesHost.constructor` | ripcqccomponent/ripcqcserviceshost.cpp:22-32 | nothing is pending at first |
| `Handlers.ServicesHost.SetAuthorHandler` | ripcqccomponent/ripcqcservicesqcdataproxy.cpp:19-36 | -1 and no change exactly if the id is taken |
| `Handlers.ServicesHost.SetLoginHandler` | ripcqccomponent/ripcqcservicesqcdataproxy.cpp:38-55 | -1 and no change exactly if the id is taken |
| `Handlers.ServicesHost.ReqAuthorStatus` | ripcqccomponent/ripcqcserviceshost.cpp:113-135 | the whole new state of the host after the call |
| `Handlers.ServicesHost.ReqUserLogin` | ripcqccomponent/ripcqcserviceshost.cpp:137-158 | the whole new state of the host after the call |
| `Handlers.ServicesHost.OnAuthorStatus` | ripcqccomponent/ripcqcserviceshost.cpp:161-192 | the whole new state of the host after the call |
| `Handlers.ServicesHost.OnLoginResult` | ripcqccomponent/ripcqcserviceshost.cpp:194-206 | the whole new state of the host after the call |
| `Handlers.ServicesHost.OnServerAuthorStatus` | ripcqccomponent/ripcqcserviceshost.cpp:84-110 | only the first notice since a connection came in changes the cached status and is passed on |
| `Handlers.ServicesHost.IncomingConnection` | ripcqccomponent/ripcqcserviceshost.cpp:43-51 | a new connection makes the next notice count as the first again |
| `PoolHandOff.HandOffBalance` | rpc_srv_demo_linux/threadpool/rthreadpool.cpp:15-46 | over every run: before shutdown waiting jobs plus one being cancelled are the semaphore plus one if the dispatcher holds a count nobody has redeemed, and while the destructor clears the waiting set they stay so up to that one; until the destructor posts for the dispatcher exactly one token is over dispatcher, event, woken workers and reply semaphore while the dispatcher is away, less the one that stop() may have taken from a worker |
| `PoolHandOff.GetJobFindsOne` | rpc_srv_demo_linux/threadpool/rthreadpool.cpp:538-541 | a worker woken for a job never meets an empty waiting set |
| `PoolHandOff.HandOffStallsIff` | rpc_srv_demo_linux/threadpool/rthreadpool.cpp:507-555 | with a job waiting beside an idle worker the hand-off has no step left exactly if stop() has taken the token away |
| `PoolHandOff.JobsReachIdleWorkers` | rpc_srv_demo_linux/threadpool/rthreadpool.cpp:352-370 | from every state before the destructor's posts every run of hand-off steps is bounded, and it stops only without a waiting job, without an idle worker, at shutdown, while a cancelJob holds the lock, or after stop() has taken the token away |
| `PoolHandOff.CancelBlocksIff` | rpc_srv_demo_linux/threadpool/rthreadpool.cpp:664-684 | a cancelJob holding the lock cannot return exactly if no other job waits and the token is with the dispatcher or beyond, and then it never does, whatever anybody does |
| `PoolRuns.CancelMayBlock` | rpc_srv_demo_linux/threadpool/rthreadpool.cpp:664-684 | in every pool submitting one job, letting the dispatcher take its count and cancelling the job blocks the caller for ever |
| `PoolRuns.StopStrandsIff` | rpc_srv_demo_linux/threadpool/rthreadpool.cpp:507-516 | stop() can overwrite the index of a job signal, so that its job stays waiting, the worker leaves and the hand-off has no step left, exactly in pools that may have a thread |
| `PoolHandOff.DispatcherEnds` | rpc_srv_demo_linux/threadpool/rthreadpool.cpp:183-192 | whatever was lost: after the destructor's two posts the dispatcher needs at most four steps to its end and always has the next one |
| `PoolRuns.InitFacts` | rpc_srv_demo_linux/threadpool/rthreadpool.cpp:235-262 | a pool starts with as many threads as its minimum, or its maximum if that is less, all starting, and with nothing pending |
| `PoolFlags.SubtractIff` | rpc_srv_demo_linux/threadpool/rthreadpool.cpp:610-628 | over every run and for every step: the wish that a thread may go is raised exactly by a worker that is at its check after a job while no job waits, more threads than the minimum run and stop() has not been called; it is taken exactly by a worker that then turns to leaving |
| `PoolFlags.LeavesOnlyWhenTold` | rpc_srv_demo_linux/threadpool/rthreadpool.cpp:508-535 | over every run: a worker turns to leaving only after stop() or by taking a wish away |
| `PoolFlags.OneGoesForEachWish` | rpc_srv_demo_linux/threadpool/rthreadpool.cpp:618-634 | over every run the wishes raised are the workers that went for one, plus one if a wish still stands |
| `PoolFlags.CancelTakesItsJob` | rpc_srv_demo_linux/threadpool/rthreadpool.cpp:664-684 | over every run: cancelJob takes the job it was asked for, and no other, out of the waiting set and hands it to be deleted |
| `PoolFlags.LockHolds` | rpc_srv_demo_linux/threadpool/rthreadpool.cpp:664-685 | while a cancelJob holds the lock nobody changes the waiting set or asks for a thread to go |
| `PoolFlags.UndoTakesTheLeast` | rpc_srv_demo_linux/threadpool/rthreadpool.cpp:311-337 | the destructor clears the waiting set from its least job on |
| `PoolFlags.AddsThreadIff` | rpc_srv_demo_linux/threadpool/rthreadpool.cpp:375-385 | over every run: a submission adds one thread exactly if fewer than the maximum run |
| `PoolQueues.JoinedAsTheyLeft` | rpc_srv_demo_linux/threadpool/rthreadpool.cpp:445-468 | over every run: the clear thread joins the threads in the order in which they left |
| `PoolQueues.DeletedAsGivenUp` | rpc_srv_demo_linux/threadpool/rthreadpool.cpp:739-793 | over every run: the jobs are deleted in the order in which their workers ended them, cancelJob cancelled them or the destructor undid them |
| `PoolQueues.EndsItsOwn` | rpc_srv_demo_linux/threadpool/rthreadpool.cpp:596-608 | the job a worker hands over for deletion is the one it ran |
| `PoolQueues.SentinelComesLast` | rpc_srv_demo_linux/threadpool/rthreadpool.cpp:174-214 | over every run: the last entry is queued only when the dispatcher has ended, every worker has returned and no job is waiting or running |
| `PoolHandOff.RankDrops` | rpc_srv_demo_linux/threadpool/rthreadpool.cpp:25-42 | each hand-off step before the destructor's posts brings the token exactly one place further |
| `PoolThreads.ThreadsConserved` | rpc_srv_demo_linux/threadpool/rthreadpool.cpp:409-482 | every thread created is in exactly one of the running list, the removing queue and the joined ones, is joined only after it has returned, and the counter is the length of the running list and never above the maximum |
| `PoolThreads.JoinNeverBlocksForLong` | rpc_srv_demo_linux/threadpool/rthreadpool.cpp:59-80 | the clear thread never finds its queue empty and waits only for a thread about to return |
| `PoolRuns.MinimumBrokenIff` | rpc_srv_demo_linux/threadpool/rthreadpool.cpp:613-634 | without stop(), some run lets the number of threads fall below the minimum exactly if the minimum is at least one and not equal to the maximum |
| `PoolOrder.LessIsStrictIff` | rpc_srv_demo_linux/threadpool/rbasejob.cpp:27-33 | operator< orders by priority, then id; it is strict exactly between different jobs |
| `PoolOrder.InsertSorted` | rpc_srv_demo_linux/threadpool/rthreadpool.cpp:367 | the waiting set stays strictly ordered |
| `PoolOrder.TakesTheLeast` | rpc_srv_demo_linux/threadpool/rthreadpool.cpp:538-545 | the job taken is the least of all that wait |
| `PoolOrder.TakenInOrder` | rpc_srv_demo_linux/threadpool/rthreadpool.cpp:538-545 | over a whole run: of two jobs that waited together the one taken first is the lesser, and jobs of equal priority leave in submission order |
| `PoolOrder.SameIdIff` | rpc_srv_demo_linux/threadpool/rthreadpool.cpp:354-358 | with the increment outside the lock and the read inside, two submissions get the same id exactly if no increment comes between their reads; then the second one's own increment came before the first one's read |
| `PoolOrder.TwinsReachable` | rpc_srv_demo_linux/threadpool/rthreadpool.cpp:354-358 | two submissions, each reading after its own increment, with one id |
| `PoolOrder.InTurnDistinct` | rpc_srv_demo_linux/threadpool/rthreadpool.cpp:354-358 | submissions one after the other get the ids 1, 2, 3 and so on |
| `PoolOrder.TwinsLeak` | rpc_srv_demo_linux/threadpool/rthreadpool.cpp:596-608 | two jobs with one id both wait; the doing map keeps the one taken first, whichever worker ends first queues that one for deletion, even while it runs, and the other is never deleted |
| `PoolJobs.JobsConserved` | rpc_srv_demo_linux/threadpool/rthreadpool.cpp:596-608 | over every run, with cancellations and shutdown: every submitted job is in exactly one of waiting, doing, to-clear and deleted, and is doing exactly while one worker runs it |
| `PoolJobs.ClearFindsOne` | rpc_srv_demo_linux/threadpool/rthreadpool.cpp:760-793 | the clear-job thread never finds its queue empty |
| `PoolJobs.AllDeletedAtTheEnd` | rpc_srv_demo_linux/threadpool/rthreadpool.cpp:311-337 | when the clear-job thread has met its sentinel every submitted job has been deleted, exactly once |
| `LogText.FloatingBuffer.constructor` | logger/floatingbuffer.cpp:13-34 | the size parameter is brought between 1 KiB and 1 MiB |
| `LogText.FloatingBuffer.Append` | logger/floatingbuffer.cpp:52-105 | the text is the first 1 MiB of the old text and the new, whichever branch is taken |
| `LogText.FloatingBuffer.Add` | logger/floatingbuffer.cpp:132-135 | the characters written behind the text become part of it |
| `LogText.FloatingBuffer.Reset` | logger/floatingbuffer.cpp:138-142 | empties the text and keeps the allocation |
| `LogText.AppendsKeepThePrefix` | logger/floatingbuffer.cpp:52-105 | any run of appends leaves the first min(total, 1 MiB) characters of what was appended |
| `LogText.RoomAfter` | logger/floatingbuffer.cpp:52-105 | the room after any append: what was there less the text if it fits; if not, and away from the largest size, what was there and the rest of 1024 characters if the text is shorter than that |
| `LogText.NumberAfterGrowth` | logger/logstream.cpp:102-110 | a number is kept right after a short append for which the buffer grew |
| `LogText.LogStream.constructor` | logger/logstream.cpp:82-86 | a stream starts with 1 KiB |
| `LogText.LogStream.FormatInteger` | logger/logstream.cpp:102-110 | an integer is printed behind the text if 32 characters are free, and dropped otherwise |
| `LogText.LogStream.FormatAddress` | logger/logstream.cpp:168-180 | an address is printed in hexadecimal behind 0x under the same guard |
| `LogText.LogStream.Append` | logger/logstream.cpp:243-246 | passes the text to the buffer |
| `LogText.IntegerKeptIff` | logger/logstream.cpp:105 | an integer is added like any other text exactly if 32 characters are free or the buffer is full at its largest size |
| `LogText.IntegerDropped` | logger/logstream.cpp:102-110 | a new stream that holds 1000 characters drops an integer |
| `Digits.TextRoundTrip` | logger/logstream.cpp:22-45 | the decimal text of every integer reads back as the integer |
| `Digits.NumberRoundTrip` | logger/logstream.cpp:48-64 | the digits of every natural number read back as the number, in both radices |
| `Digits.NoLeadingZero` | logger/logstream.cpp:16-42 | only zero is written with a leading zero |
| `Digits.Written` | logger/logstream.cpp:16-42 | some numbers as they are written, with sign and capital hexadecimal digits |
| `Digits.TextFits` | logger/logstream.cpp:102-110 | every signed or unsigned 64-bit integer, the minimum included, takes 1 to 20 characters, so the guard of 32 suffices |
| `Digits.HexFits` | logger/logstream.cpp:171-177 | a 64-bit address takes 1 to 16 characters |
| `Digits.TruncFacts` | logger/logstream.cpp:32-35 | quotient and remainder truncated towards zero have the digits of the absolute value |
| `Digits.Reverse` | logger/logstream.cpp:43 | reverses a stretch of the buffer in place |
| `Digits.Convert` | logger/logstream.cpp:22-45 | writes the decimal text and a terminator into the buffer, changes nothing else, and returns the length |
| `Digits.ConvertHex` | logger/logstream.cpp:48-64 | the same in hexadecimal |
| `Crc.OptimalRefinesBasic` | ripcqccomponent/3rdparty/boost_1_81_0/boost/crc.hpp:2092-2114 | for every byte string, polynomial, initial remainder, final mask and both reflection flags the table-driven checksum is the bitwise one, for every width of at least 8 |
| `Crc.ChecksumIsLongDivision` | ripcqccomponent/3rdparty/boost_1_81_0/boost/crc.hpp:1738-1898 | bit by bit, the checksum is the remainder of the message in long division of polynomials by hand, the bytes taken from either end, the initial remainder added to the first bits, reversed if asked for and with the final mask added |
| `Crc.OneLeavesPoly` | ripcqccomponent/3rdparty/boost_1_81_0/boost/crc.hpp:1738-1744 | a message of a single one leaves the polynomial |
| `Crc.TableRemainderRefines` | ripcqccomponent/3rdparty/boost_1_81_0/boost/crc.hpp:1234-1253 | the table-driven register, reflected like the input, is the bitwise register after any bytes |
| `CrcWords.TableStep` | ripcqccomponent/3rdparty/boost_1_81_0/boost/crc.hpp:1141-1159 | eight divisions are one shift and one table entry |
| `CrcWords.ReflectedRefines` | ripcqccomponent/3rdparty/boost_1_81_0/boost/crc.hpp:1234-1253 | the same on a reflected register and a reflected byte |
| `CrcWords.FeedBitsLinear` | ripcqccomponent/3rdparty/boost_1_81_0/boost/crc.hpp:548-576 | division is linear in register and message together |
| `CrcWords.FeedCancels` | ripcqccomponent/3rdparty/boost_1_81_0/boost/crc.hpp:548-576 | a message equal to the top of the register is only shifted out |
| `Crc.ChecksumsAgree` | ripcqccomponent/3rdparty/boost_1_81_0/boost/crc.hpp:308-311 | reflecting the output exactly where the two flags differ gives the checksum of the bitwise register |
| `Crc.BlocksCompose` | ripcqccomponent/3rdparty/boost_1_81_0/boost/crc.hpp:1828-1874 | a message may be processed in any blocks |
| `Crc.SelfCheck` | ripcqccomponent/3rdparty/boost_1_81_0/boost/crc.hpp:548-576 | a message followed by its own remainder leaves the register zero |
| `Crc.ReflectUnsigned` | ripcqccomponent/3rdparty/boost_1_81_0/boost/crc.hpp:383-397 | reverses the low bits and leaves the others |
| `Crc.MakeReflectionTable` | ripcqccomponent/3rdparty/boost_1_81_0/boost/crc.hpp:408-441 | every byte is mapped to its reflection |
| `Crc.CrcModuloWordUpdate` | ripcqccomponent/3rdparty/boost_1_81_0/boost/crc.hpp:548-576 | feeds the bits of a word in the order asked for |
| `Crc.MakePartialXorProductsTable` | ripcqccomponent/3rdparty/boost_1_81_0/boost/crc.hpp:966-985 | every entry is the effect of its byte, also where entries are stored in reflected order |
| `Crc.PlaceTwice` | ripcqccomponent/3rdparty/boost_1_81_0/boost/crc.hpp:978-982 | the places of the entries are a permutation |
| `Crc.CrcBasic.constructor` | ripcqccomponent/3rdparty/boost_1_81_0/boost/crc.hpp:1556-1575 | starts at the initial remainder |
| `Crc.CrcBasic.ProcessBit` | ripcqccomponent/3rdparty/boost_1_81_0/boost/crc.hpp:1738-1744 | one division step |
| `Crc.CrcBasic.ProcessBits` | ripcqccomponent/3rdparty/boost_1_81_0/boost/crc.hpp:1763-1779 | feeds the lowest bits of a byte, the highest of them first |
| `Crc.CrcBasic.ProcessByte` | ripcqccomponent/3rdparty/boost_1_81_0/boost/crc.hpp:1794-1800 | feeds a byte, reflected if asked for |
| `Crc.CrcBasic.ProcessBlock` | ripcqccomponent/3rdparty/boost_1_81_0/boost/crc.hpp:1828-1839 | the register after the bytes, as the reference has it |
| `Crc.CrcBasic.GetChecksum` | ripcqccomponent/3rdparty/boost_1_81_0/boost/crc.hpp:1891-1898 | the reference checksum of the register |
| `Crc.CrcOptimal.constructor` | ripcqccomponent/3rdparty/boost_1_81_0/boost/crc.hpp:1926-1932 | the register stands for the initial remainder |
| `Crc.CrcOptimal.Reset` | ripcqccomponent/3rdparty/boost_1_81_0/boost/crc.hpp:2033-2039 | the register stands for a given remainder |
| `Crc.ResetBothAgree` | ripcqccomponent/3rdparty/boost_1_81_0/boost/crc.hpp:1698-1705 | reset makes a used computer a new one: whatever the two computers have processed before, after a reset to the same remainder both give the reference checksum of the bytes that follow |
| `Crc.CrcOptimal.CrcUpdate` | ripcqccomponent/3rdparty/boost_1_81_0/boost/crc.hpp:1141-1159 | one table look-up, direct or reflected |
| `Crc.CrcOptimal.ProcessBytes` | ripcqccomponent/3rdparty/boost_1_81_0/boost/crc.hpp:2092-2100 | the register stands for the bitwise one after the bytes |
| `Crc.CrcOptimal.GetChecksum` | ripcqccomponent/3rdparty/boost_1_81_0/boost/crc.hpp:2108-2114 | the reference checksum of the bitwise register it stands for |
| `Crc.BothAgree` | ripcqccomponent/3rdparty/boost_1_81_0/boost/crc.hpp:1891-1898 | the two computers, given the same bytes, return the same checksum |

## Left out

- EventLaws.SignalsConserved: a SetEvent counts when it takes effect, not when it is called.
- PoolHandOff.HandOffBalance: The step in which `stop()` overrides a job signal is allowed whenever `stop()` has been called before and the worker is not past its wait; that it needs `stop()` to have seen the wait going on is the subject of `EventLosses`.
- RpcBuffers.RpcBuffer.Append: asks for a size at which the 32-bit capacity does not wrap; at the others, which `RpcBuffers.GrowthIff` gives exactly, the new bytes do not fit the buffer the source allocates, and what happens then is not modelled.
- ClientChannels.ClientChannel.OnRecvData: the same for the chunk it appends.
- Connections.ConnectionRefinesRpc: no write fails or finds the queue full, ids keep the guard of `Rpc.GuardExact`, chunks that of `ServerDecoder.StreamServedIff`, and the server's own requests do not have id 0.
- PoolThreads.JoinNeverBlocksForLong: says that the awaited thread has a step left and what it is, not when it takes it.
- PoolHandOff.JobsReachIdleWorkers: the wait for three events is a choice among those that are set; that a worker asleep is handed a signal is the subject of the event modules.
- Rpc.EachRequestInOnePlace: the server's processor is a function of the request and may answer in any order or never; frames travel on FIFO streams, which `Connections` derives from the bytes below.
- LocalSockets.LocalSocket.Disconnect: the closing state between two statements, the early return without a pipe and the release of the queue and of the handles are not modelled, only that nothing is written any more.
- ClientChannels.ClientChannel.SendAndRecvMessage: ids are 32-bit counters that wrap; the source keeps them in a signed int.
- LogText.LogStream.FormatInteger: the template is modelled for the integers of all 64-bit types at once.
- Crc.OptimalRefinesBasic: registers wider than the polynomial, and widths below 8, are not modelled.
- Update in place of the concurrent parts: events, pool, `Link`, `Rpc` and `Connections` are values with steps, since several threads change them; aliasing of wait records is by number.
- Weak memory orders: every atomic access is sequentially consistent. The Windows half of `rpevents.cpp`, `PulseEvent`, `DestroyEvent` and `CreateEvent` failures.
- `WaitForEvent` on a single event: only the step in which it takes the event; its time-outs take nothing.
- Failing or partial writes and a queue that fills up in mid-frame, in `Link`, `Rpc` and `Connections`: they cut frames. The class methods state what they do, and `ClientRequests` what a refused request leaves in the stream.
- Exceptions thrown by processors or callbacks, and callbacks that re-enter the decoder.
- Several threads sending on one socket at the same time: the source has no lock there.
- Connecting, reading and reconnecting of `rlocalsocket.cpp`, and its Linux counterpart.
- Cancelling a running job, synchronous cancellation, `all_thread_complete_event_`, and restart after stop.
- The non-atomic id of `submitJob`: submission is one step in the pool; what the two halves can do is `PoolOrder.SameIdIff` and `PoolOrder.TwinsLeak`.
- The exit of the thread-clearing thread in the destructor, which leaves threads that are still queued unjoined.
- The unlocked `map_thread_ids_`: a thread is found by its number.
- Null handlers, text conversion, client notification and the connection maps of `ripcqccomponent`.
- Log files, rotation, time stamps, floating-point output and formatted output.
- `augmented_crc` and the remaining templates of Boost and Thrift.
