# A verified model of pymod

pymod is a Modbus driver for TCP and RTU with a client, a batch planner and a server. This
project models its core in Dafny and proves what that core is for: batching that cannot be
noticed, replies that cannot be mixed up, damage that cannot go undetected, and writes that come
back exactly as written.

`dafny verify dfyconfig.toml` verifies the whole project.

## The parts

| file | models |
|---|---|
| `ReadPlan.dfy`, `ReadExecute.dfy` | read planner: merge, split, execute, slice back |
| `WritePlan.dfy` | write planner: split, execute in any order, assemble results |
| `EndToEnd.dfy` | planners, PDUs, dispatcher and simulator store joined |
| `TcpTransport.dfy` | transaction-id demultiplexer as a state machine and an object |
| `TcpProgress.dfy`, `TcpReplies.dfy` | its locks, replies, teardowns and close(): what is released, returned, refused, and what can always still happen |
| `RtuOverTcp.dfy` | lock-step RTU-over-TCP transport as a state machine and an object |
| `RtuProgress.dfy` | its lock and replies: what is released, returned, refused, and what can always still happen |
| `Crc16.dfy`, `RtuFrame.dfy`, `RtuStream.dfy` | CRC-16, RTU frames, the length-less response reader |
| `Mbap.dfy`, `ServerStream.dfy` | MBAP frames, stream cutting, one server connection |
| `Pdu.dfy`, `Packing.dfy` | PDU codecs and bit packing |
| `RegisterCodec.dfy`, `BitExtraction.dfy` | typed values and bits over register blocks |
| `Server.dfy`, `SimStore.dfy` | dispatch for arbitrary callbacks; the simulator's memory |
| `Client.dfy`, `Delivery.dfy` | the retry loop; batch writes over a network that loses requests and replies |
| `Basics.dfy`, `Errors.dfy` | shared types and arithmetic |

## How the model is built

* A byte is an integer in 0..255, a register an integer in 0..65535. Python's unbounded integers
  are `int`. Exclusive or is defined bit by bit on integers, so no bit-vector is needed. Python's
  `bool` is an `int`, so a coil cell is 0 or 1.
* A raised exception is the `Err` of a `Result`. `ValueError` escapes a batch; the errors of
  `src/pymod/errors.py` are recorded per item.
* The plan of a batch read is described by the predicate `PlanOk`, which the planning method
  establishes. Theorems about reading hold for every plan that satisfies it.
* Code with loops or changing fields is a method or a class whose contract ties the new state to
  a function of the old one; theorems are about those functions.
* The two network transports are state machines whose steps are the stretches of code between
  two awaits. Coroutines are entries of a table with a program counter. The network, the peer and
  the timers are extra steps that may happen whenever their guard allows. A run is any sequence of
  enabled steps from the initial state.
* That no call is stuck is stated as what remains possible: from every state of every run a short
  continuation exists that ends the call, or serves it. The continuations that end a call use only
  steps that need nobody's help. Fairness, that such steps are taken in the end, is asyncio's part.
* Callbacks, the executor given to the planners and the outcome of each transport attempt are
  function parameters, so every statement about them is for all behaviours. The executor of a write
  batch also sees the chunk's position, because two chunks may send the same request and end
  differently; the chunks of a read plan never share a request.

## Where code and documentation differ

* The planner's documentation promises the minimal sequence of requests
  (`src/pymod/planner.py:3-5`). The code never reads an unrequested address, so a plan that bridges
  a gap can be shorter. `BridgingCanBeShorter` gives the smallest case, `PlanIsMinimal` proves
  minimality among plans that read only what was requested, and `ShortestIffSweep` says exactly
  when no plan at all is shorter. The condition compares two numbers computed from the batch:
  `PlanSize`, which rounds up the length of each merged range to whole requests on its own, and
  the length of `Sweep`, which opens a full window at the first address not yet covered and runs
  over gaps. The plan is shortest exactly when they are equal.
* Write batches are order-independent exactly when items agree on every address they share.
  Disjoint items always do. `OrderIndependent` and `OrderMattersOtherwise` are the two halves; the
  second gives two orders that run every chunk exactly once and differ.
* Demultiplexing is safe while a reply arrives before 65536 further ids are probed
  (`DemultiplexingSafety`); one probe later it is not (`LateReplyMisdelivered`).
* A reply that arrives in time is returned exactly when the table still has its call
  (`ReplyReturned`). It does as long as no call stays in flight for 65536 further probes
  (`PromptCallsAreRegistered`). Otherwise the `finally` of an old call, failed by a teardown and
  resumed a whole turn of the ids later, removes the entry of the newer call with its id
  (`StaleCleanupLosesReply`; the scheduler may delay a call that long in the model).
* close() of the TCP transport does not wait for an attempt to connect. A transport that is closed
  and disconnected can be connected again exactly if a call was opening a connection
  (`ReconnectsIffOpening`). The RTU-over-TCP transport has no such gap (`NeverReconnects`).

## Model

| member | source | states |
|---|---|---|
| TcpTransport.DemultiplexingSafety | src/pymod/transport/tcp.py:103-135 | over every interleaving of sends, replies in any order, timeouts, teardowns and reconnects, a call that returns normally returns exactly the PDU of a frame that arrived earlier, that the peer sent for its own request and that carries the id standing in the bytes of that request, provided replies echo the id they were asked under and are not 65536 probes late |
| TcpTransport.LateReplyMisdelivered | src/pymod/transport/tcp.py:167-199 | constructs a run in which one reply is late by exactly 65536 probes and is returned by another call, so the window is tight |
| TcpTransport.ReplyFindsItsCall | src/pymod/transport/tcp.py:194-199 | inside the window the pending table maps a reply's id to the call it answers and to no other |
| TcpTransport.ResolvedOnceInRun | src/pymod/transport/tcp.py:194-242 | a future that is done keeps its result or error in every later state of every run |
| TcpTransport.ResolvedOnce | src/pymod/transport/tcp.py:194-242 | no single step changes a future that is done |
| TcpTransport.TransportInvariant | src/pymod/transport/tcp.py:96-135 | in every reachable state connected holds exactly when a writer is set, pending entries belong to calls in flight, no call in flight means an empty table, without pipelining there is at most one entry, and the next id is the probe count modulo 65536 |
| TcpTransport.ConnectionAvailable | src/pymod/transport/tcp.py:109-117 | in every run a call that gets as far as writing finds a writer, so the "connection unavailable" branch is dead; it can raise there only for exhausted ids or a request that fits no frame |
| TcpTransport.StepKeepsInv | src/pymod/transport/tcp.py:103-242 | every step of every coroutine, however late or wrong the frames, keeps the structural invariant |
| TcpTransport.StepKeepsAnswers | src/pymod/transport/tcp.py:103-242 | every step with a timely frame keeps futures and returns matched to their own calls |
| TcpTransport.StepKeepsSent | src/pymod/transport/tcp.py:109-124 | what a call has written is the frame of its own request under its own id, and every call in flight has written |
| TcpTransport.AllocatorExact | src/pymod/transport/tcp.py:167-176 | allocation fails exactly when all 65536 ids are pending, and otherwise finds an id that is not |
| TcpTransport.GrantsApart | src/pymod/transport/tcp.py:167-176 | two grants of one id are at least 65536 probes apart, and the log of probed ids holds every id between them |
| TcpTransport.LogIsCyclic | src/pymod/transport/tcp.py:167-176 | the ids looked at in any run, in order, are 0, 1, 2, ... modulo 65536 without a gap |
| TcpTransport.Transport.AllocateTid | src/pymod/transport/tcp.py:167-176 | the probe loop returns the first free id and advances the counter past it |
| TcpTransport.Transport.WriteRequest | src/pymod/transport/tcp.py:109-127 | registers the call under its id and writes, or ends the call and removes the id again |
| TcpTransport.Transport.Begin | src/pymod/transport/tcp.py:68-95 | a call on a closed transport raises at once, any other is queued |
| TcpTransport.Transport.SerialLockGranted | src/pymod/transport/tcp.py:96-109 | takes the serial lock when there is one and goes on to write if already connected |
| TcpTransport.Transport.ConnectionLockGranted | src/pymod/transport/tcp.py:137-149 | the part of `_ensure_connected` that runs when the lock is granted |
| TcpTransport.Transport.ConnectionOpened | src/pymod/transport/tcp.py:159-165 | sets writer and connected together and lets the call go on without suspension |
| TcpTransport.Transport.ConnectionFailed | src/pymod/transport/tcp.py:150-158 | the call raises, the connection lock is released, no id was taken |
| TcpTransport.Transport.OnDrained | src/pymod/transport/tcp.py:123-128 | after the write the call waits for its future, or raises and removes its id |
| TcpTransport.Transport.OnResume | src/pymod/transport/tcp.py:128-135 | returns the reply held by the call's own future or raises its error, and removes the id |
| TcpTransport.Transport.OnFrame | src/pymod/transport/tcp.py:189-199 | drops malformed, unmatched and superfluous frames and otherwise resolves the one future registered under the id |
| TcpTransport.Transport.OnTimeout | src/pymod/transport/tcp.py:128-135 | cancels the future if it is not done and removes the id |
| TcpTransport.Transport.BeginClose | src/pymod/transport/tcp.py:73-75 | close() sets its flag before it tears down |
| TcpTransport.Transport.DropConnection | src/pymod/transport/tcp.py:211-215 | first half of a teardown |
| TcpTransport.Transport.FailAllPending | src/pymod/transport/tcp.py:239-242 | second half: fails exactly the registered futures that are not done and clears the table |
| TcpTransport.Transport.FailFutures | src/pymod/transport/tcp.py:239-241 | the loop fails exactly the registered futures that are not done, in whatever order |
| TcpProgress.LocksAreReleased | src/pymod/transport/tcp.py:96-158 | in every reachable state the connection lock is held by exactly the call that is opening a connection and the serial lock by exactly the request inside the serial section, so with nobody opening any call can take the connection lock and with nobody inside any queued call can enter |
| TcpProgress.StepKeepsLocks | src/pymod/transport/tcp.py:96-158 | every step, failed and successful connects, early and late endings included, keeps the locks with their holders |
| TcpProgress.EveryCallCanEnd | src/pymod/transport/tcp.py:87-158 | no call is stuck: from every state of every run every call ends within seven further steps that need nobody else: locks granted, connects and writes failing, replies timing out |
| TcpReplies.RequestCanBeServed | src/pymod/transport/tcp.py:87-135 | while the transport is not closed and an id is free, every queued request that fits a frame can be written, whatever the others are doing, and then returns whatever reply the peer sends to it in time |
| TcpReplies.ConnectCanReturn | src/pymod/transport/tcp.py:67-70 | while the transport is not closed every queued connect() can return with the transport connected |
| TcpReplies.ReplyReturned | src/pymod/transport/tcp.py:128-199 | if a frame arrives with the id of a request in flight that the table still has, the call can resume whenever it waits and returns exactly the PDU of that frame; if the table does not have it, the frame does nothing for it; in a prompt run the table has it |
| TcpReplies.PromptCallsAreRegistered | src/pymod/transport/tcp.py:103-135 | while no call stays in flight for 65536 further probes, every call in flight with an open future is in the table under its own id |
| TcpReplies.StaleCleanupLosesReply | src/pymod/transport/tcp.py:128-242 | constructs a run with only timely replies in which the clean-up of an old call removes the table entry of a newer one with its id, whose reply is then dropped, so promptness is needed |
| TcpReplies.TeardownStrandsNobody | src/pymod/transport/tcp.py:239-242 | a teardown empties the table and fails every open future in it; in a prompt run every waiting call can go on at once |
| TcpReplies.RefusedIffClosed | src/pymod/transport/tcp.py:67-95 | a call is refused on entry exactly if close() has begun, and otherwise queued |
| TcpReplies.ConnectedIffOpenedLast | src/pymod/transport/tcp.py:159-215 | in every run the transport is connected exactly if no teardown has begun since a connection was last opened |
| TcpReplies.EndsByKind | src/pymod/transport/tcp.py:67-135 | a request ends by returning a reply or raising, a connect() by finishing or raising |
| TcpReplies.CloseRefuses | src/pymod/transport/tcp.py:67-95 | once closed always closed, later calls raise, and no call that was not already opening a connection begins to |
| TcpReplies.ReconnectsIffOpening | src/pymod/transport/tcp.py:72-165 | a closed and disconnected transport can become connected again exactly if a call was opening a connection |
| RtuOverTcp.LockStepSafety | src/pymod/transport/rtu_over_tcp.py:78-132 | in every state of every run: with the lock free the transport is disconnected or silent and owed nothing; a call that returned holds the PDU the peer sent for that very request; after close() has returned it is not connected |
| RtuOverTcp.NeverReconnects | src/pymod/transport/rtu_over_tcp.py:62-65 | once close() has returned, no later state of the run is connected |
| RtuOverTcp.StepKeepsInv | src/pymod/transport/rtu_over_tcp.py:78-171 | every step of every coroutine, of the peer and of the network keeps the lock, wire, answer and close invariants |
| RtuOverTcp.ReadsWholeReply | src/pymod/transport/rtu_over_tcp.py:102-106 | bytes of one reply that have arrived so far are read as that reply or not at all, and reading leaves nothing behind |
| RtuOverTcp.Transport.Begin | src/pymod/transport/rtu_over_tcp.py:56-88 | the checks before the lock; close() sets its flag at once |
| RtuOverTcp.Transport.TakeLock | src/pymod/transport/rtu_over_tcp.py:89-97 | what happens when the lock is granted to a send, connect or close call; close() drops an open connection and waits for it under the lock |
| RtuOverTcp.Transport.Opened | src/pymod/transport/rtu_over_tcp.py:155-158 | a fresh connection carries nothing, and the call goes on to write |
| RtuOverTcp.Transport.OpenFailed | src/pymod/transport/rtu_over_tcp.py:136-154 | the call raises and the lock is released with nothing connected |
| RtuOverTcp.Transport.OnDrained | src/pymod/transport/rtu_over_tcp.py:95-106 | after the write the call waits for the response |
| RtuOverTcp.Transport.Abandon | src/pymod/transport/rtu_over_tcp.py:98-123 | send failure, timeout or loss: connection and everything on it dropped, the lock kept while the old connection closes |
| RtuOverTcp.Transport.Closed | src/pymod/transport/rtu_over_tcp.py:160-171 | the wait inside the teardown is over: the lock is released, close() returns, a send raises |
| RtuOverTcp.Transport.Answer | src/pymod/transport/rtu_over_tcp.py:127-132 | frame consumed, CRC and unit id checked, lock released, no teardown |
| RtuProgress.ReplyIsReturned | src/pymod/transport/rtu_over_tcp.py:102-132 | in every reachable state a receiving call can finish exactly when the whole reply to its request is there; it then returns that reply if it comes from the unit asked and raises otherwise, with the lock free and the connection kept and silent in both cases |
| RtuProgress.RequestCanBeServed | src/pymod/transport/rtu_over_tcp.py:78-132 | while the transport is not closed every queued request that fits a frame can be served, whatever the others are doing: it returns whatever the peer answers, or raises if the unit differs |
| RtuProgress.ConnectCanReturn | src/pymod/transport/rtu_over_tcp.py:56-60 | while the transport is not closed every queued connect() can return with the transport connected |
| RtuProgress.EveryCallCanEnd | src/pymod/transport/rtu_over_tcp.py:56-171 | no call is stuck: every call ends within five further steps that need nobody else, and close() ends by returning, with the transport disconnected |
| RtuProgress.LockIsReleased | src/pymod/transport/rtu_over_tcp.py:56-171 | in every reachable state the lock is held by exactly the call inside it, so with nobody inside any queued call can take it |
| RtuProgress.WroteItsRequest | src/pymod/transport/rtu_over_tcp.py:92-97 | from the frame that a call wrote, its own unit id and PDU are read back |
| RtuProgress.StepKeepsCalls | src/pymod/transport/rtu_over_tcp.py:56-171 | every step keeps each kind of call to its own phases: a send never ends like a connect, a close never fails |
| RtuProgress.RefusedIffClosed | src/pymod/transport/rtu_over_tcp.py:56-88 | a send or connect is refused on entry exactly if a close() has begun, a send of an empty PDU always, and anything else is queued |
| RtuProgress.ConnectedIffOpenedLast | src/pymod/transport/rtu_over_tcp.py:136-171 | in every run the transport is connected exactly if no send has given up and no close() has got the lock since a connection was last opened |
| RtuProgress.CloseRefuses | src/pymod/transport/rtu_over_tcp.py:56-88 | once close() has begun later sends and connects raise, and no call that was not already opening a connection begins to |
| ReadExecute.ReadPreservesMeaning | src/pymod/planner.py:200-292 | for every plan, device memory and set of failing chunks: unless a chunk that reads one of its addresses failed, an item's outcome is the meaning of its own cells: a bit is true iff its cell is non-zero, numbers are the values of its type that encode back to its registers in its own orders, a named bit is the bit that its index, orders and numbering name, and exactly a broken block or an index outside it is a ModbusError; otherwise it is the error of the lowest-addressed such chunk |
| ReadExecute.MeaningUnique | src/pymod/planner.py:230-292 | that meaning, stated by encoding and by single bits, leaves no choice of outcome |
| ReadExecute.CellsMean | src/pymod/planner.py:230-292 | decoding the cells of an item, of every kind and reading, gives that meaning |
| ReadExecute.BatchedAsAlone | src/pymod/planner.py:200-243 | decoding the item out of the joined chunks equals decoding its own cells alone |
| ReadExecute.PlanAndExecuteReads | src/pymod/planner.py:295-310 | results parallel to the items; ValueError exactly when an item is invalid or a chunk raises it |
| ReadExecute.DecodeReadItem | src/pymod/planner.py:200-243 | filter, sort, error scan, join and slice compute the item's outcome |
| ReadExecute.CoveringTiles | src/pymod/planner.py:207-214 | the chunks kept for an item are already sorted, follow each other without gap or overlap, and contain the item |
| ReadPlan.PlanIsMinimal | src/pymod/planner.py:152-169 | no plan within the limits that reads exactly the requested addresses has fewer requests |
| ReadPlan.ShortestIffSweep | src/pymod/planner.py:152-169 | the plan is shortest among all plans that read at least the requested addresses exactly when rounding up each merged range on its own takes as many requests as sweeping full windows over the gaps; both numbers come from the items |
| ReadPlan.PlanLength | src/pymod/planner.py:152-169 | every plan that meets the description has the number of requests computed from the items: per merged range, its length over the limit rounded up |
| ReadPlan.SweepIsSweep | src/pymod/planner.py:152-169 | the sweep computed from the items covers them with full windows that start at requested addresses and never overlap |
| ReadPlan.SweepIsLowerBound | src/pymod/planner.py:152-169 | no plan that reads at least the requested addresses has fewer requests than the sweep has windows |
| ReadPlan.BridgingCanBeShorter | src/pymod/planner.py:138-149 | a two-item batch for which a plan that reads an unrequested address needs one request fewer |
| ReadPlan.ReadExactlyOnce | src/pymod/planner.py:152-169 | every requested address is read by exactly one request |
| ReadPlan.CanonicalUnique | src/pymod/planner.py:138-149 | the merged ranges are the only sorted, gap-separated form of the requested address set, whatever the input order |
| ReadPlan.MergeRanges | src/pymod/planner.py:138-149 | the merge loop yields the merged form: sorted, non-empty, gap-separated ranges that cover the same addresses |
| ReadPlan.MergedProps | src/pymod/planner.py:138-149 | the merged form of any list of non-empty ranges is canonical and covers the same addresses |
| ReadPlan.SplitRange | src/pymod/planner.py:163-168 | the splitting loop yields the pieces: within limits, in order, covering exactly the range, as many as its length over the limit rounded up |
| ReadPlan.PiecesProps | src/pymod/planner.py:163-168 | the pieces of a range lie in it, start a full limit apart and read exactly it |
| ReadPlan.SplitMerged | src/pymod/planner.py:160-168 | the chunks of one area tile the merged ranges, and any two start a limit apart or have an uncovered address between them |
| ReadPlan.GroupByArea | src/pymod/planner.py:154-157 | each area keeps the ranges of its own items, in order |
| ReadPlan.PlanReadChunks | src/pymod/planner.py:152-169 | the plan is within limits, ordered, disjoint, exact in what it reads, and as long as the batch alone determines |
| WritePlan.OrderIndependent | src/pymod/planner.py:342-385 | for items that agree where they overlap, any execution order with any repetition that runs each chunk at least once leaves the memory of writing each item directly |
| WritePlan.OrderMattersOtherwise | src/pymod/planner.py:342-385 | if two items disagree on an address, two orders that run every chunk exactly once leave different memories |
| WritePlan.ExecutedItemStored | src/pymod/planner.py:342-385 | an item whose own chunks all reached the device is stored completely, whatever else failed or was repeated |
| WritePlan.FailsIffOwnChunkFails | src/pymod/planner.py:436-446 | an item is failed exactly when one of its own chunks failed, with the first such error in plan order |
| WritePlan.AssembleResults | src/pymod/planner.py:433-446 | the overwriting loop lets the first error of each item win |
| WritePlan.PlanWrites | src/pymod/planner.py:342-385 | raises ValueError exactly on an empty item or one whose values do not all encode; otherwise chunks are slices of their items, ordered by item and address, full except the last, and cover every cell |
| WritePlan.SplitWrite | src/pymod/planner.py:353-367 | one item cut from its low end into full slices and a rest |
| EndToEnd.WriteThenRead | src/pymod/planner.py:388-446 | every chunk succeeds; whatever the order and repetition of chunks, a planned read with the same typing returns exactly the values written, for every integer dtype (whole-valued floats and bools as their integers), every order, and floats as byte patterns; no other address of any area changes |
| Delivery.OkItemStored | src/pymod/planner.py:420-446 | for items that agree where they overlap: every cell of an item reported ok is in the device, whatever was lost, retried, repeated or failed elsewhere; an address changes only if a chunk holding it arrived |
| Delivery.FailureSaysNothing | src/pymod/planner.py:416-446 | a reported failure does not tell whether the item is stored: two runs alike to the client, one storing the whole batch and one nothing |
| Delivery.OkChunkArrived | src/pymod/client.py:176-200 | a chunk that ends without error was received by the device in one of its attempts |
| EndToEnd.ChunkThroughServer | src/pymod/planner.py:388-417 | a chunk sent as FC05, FC06, FC15 or FC16 stores exactly its cells and the client sees success |
| EndToEnd.WriteChunkVerdict | src/pymod/planner.py:388-417 | for every executor: a chunk ends without error exactly on an echo of its own function code and shape; an exception response is reported with its code, any other function code or shape as a protocol error, an executor error as it is |
| EndToEnd.WriteChunkAgreement | src/pymod/planner.py:388-417 | for every on_write: a chunk succeeds exactly if its cells are accepted, and is otherwise reported with the code that on_write raised, that of a failed device, or illegal function |
| EndToEnd.RefusedBatch | src/pymod/planner.py:388-446 | against a read-only server or a foreign unit every item of a batch is reported failed with the refusal, and no order or repetition of chunks changes the store |
| EndToEnd.PlanAndExecuteWrites | src/pymod/planner.py:420-446 | results parallel to the items, each with the first error of its own chunks, for every outcome of every single chunk, equal requests included; ValueError exactly when an item or a chunk raises it |
| EndToEnd.ReadChunkThroughServer | src/pymod/planner.py:172-197 | a read chunk over mapped cells returns those cells |
| EndToEnd.ReadChunkVerdict | src/pymod/planner.py:172-197 | for every executor: a chunk is accepted exactly with its function code, byte count and length, and its cells are those its bytes spell; everything else is the exception carried, a protocol error, or the executor error |
| EndToEnd.ReadChunkAgreement | src/pymod/planner.py:172-197 | for every on_read a chunk ends with what the client must see of it |
| EndToEnd.SimulatorAnswersItem | src/pymod/planner.py:172-243 | a batch read from the simulator: an item fails with illegal data address exactly when a request that carries it meets an unmapped address, and otherwise means its own cells |
| Crc16.Crc | src/pymod/protocol/adu_rtu.py:38-43 | the table-driven loop computes the bit-serial CRC of every byte string |
| Crc16.BuildTable | src/pymod/protocol/adu_rtu.py:22-32 | entry b is eight bit steps from b |
| Crc16.TableStep | src/pymod/protocol/adu_rtu.py:41-42 | one table lookup equals xoring a byte and eight bit steps |
| Crc16.ShiftNLinear | src/pymod/protocol/adu_rtu.py:26-30 | the bit steps are linear for exclusive or |
| Crc16.ShiftNInjective | src/pymod/protocol/adu_rtu.py:26-30 | the bit steps are injective on 16-bit registers |
| Crc16.BurstChangesRegister | src/pymod/protocol/adu_rtu.py:38-43 | bit strings that differ only inside a window of at most 16 bits leave different registers |
| Crc16.CrcIsRemainder | src/pymod/protocol/adu_rtu.py:17-43 | the CRC is the one remainder of the message, its first sixteen bits inverted, divided as a polynomial over two elements by x^16 + x^15 + x^2 + 1 |
| Crc16.ShiftNIsRemainder | src/pymod/protocol/adu_rtu.py:26-30 | any number of bit steps is that division: the register left is the remainder, and the only one |
| BitArith.XorBit | src/pymod/protocol/adu_rtu.py:26-30 | exclusive or on integers is exclusive or of each bit |
| RtuFrame.BurstDetected | src/pymod/protocol/adu_rtu.py:46-70 | any damage confined to 16 consecutive transmitted bits of an encoded frame is reported as a CRC mismatch |
| RtuFrame.AdjacentBytesDetected | src/pymod/protocol/adu_rtu.py:46-70 | any damage confined to two adjacent bytes, also across body and CRC, is reported as a CRC mismatch |
| RtuFrame.ZeroResidue | src/pymod/protocol/adu_rtu.py:64-69 | the trailing CRC matches exactly when the CRC of the whole frame is zero |
| RtuFrame.DecodeAccepts | src/pymod/protocol/adu_rtu.py:46-70 | decoding accepts exactly the frames with zero residue, and accepts (unit, PDU) exactly when encoding them gives that frame |
| RtuFrame.EncodeFrame | src/pymod/protocol/adu_rtu.py:46-53 | succeeds exactly for a unit id in 0..255 and a non-empty PDU, adding three bytes |
| RtuFrame.FrameBytes | src/pymod/protocol/adu_rtu.py:46-53 | the frame byte by byte: unit id, PDU, low byte and high byte of the CRC |
| RtuStream.StreamRoundTrip | src/pymod/transport/_rtu_response.py:34-64 | any list of responses written back to back is read back one by one, with trailing bytes untouched |
| RtuStream.TakesExactlyOne | src/pymod/transport/_rtu_response.py:34-64 | the reader stops exactly at the end of any response the server can encode, and never on a proper prefix of it |
| RtuStream.UnknownCodeRefused | src/pymod/transport/_rtu_response.py:34-50 | the reader refuses a stream exactly when its second byte is no function code of the eight and no exception |
| RtuStream.ByteSource.ReadResponse | src/pymod/transport/_rtu_response.py:34-50 | the sequence of reads takes exactly one frame and leaves the rest; an unknown function code costs two bytes, a short stream everything |
| Mbap.CutIsUnique | src/pymod/transport/tcp.py:182-193 | frame boundaries are forced by the bytes: no other division into whole frames exists, malformed or not |
| Mbap.CutDivides | src/pymod/transport/tcp.py:182-193 | cutting loses nothing and stops only at an unfinished frame |
| Mbap.ReadLoop | src/pymod/transport/tcp.py:182-193 | the read loop cuts the stream that way |
| Mbap.TakeFrame | src/pymod/transport/tcp.py:182-186 | one turn: peek six bytes, learn the length, take the frame or wait for more |
| Mbap.NextFrame | src/pymod/protocol/adu_tcp.py:70-89 | each turn takes a frame of six plus its length field, at least six bytes |
| Mbap.WholeFrames | src/pymod/protocol/adu_tcp.py:48-67 | a cut frame is never rejected for its length, and is well-formed exactly when its protocol id is zero and its length leaves room for a PDU |
| Mbap.EncodeDecode | src/pymod/protocol/adu_tcp.py:27-67 | decoding an encoded frame returns id, unit and PDU |
| Mbap.DecodeEncode | src/pymod/protocol/adu_tcp.py:27-67 | encoding what was decoded gives the same frame |
| Mbap.EncodeFrame | src/pymod/protocol/adu_tcp.py:27-45 | succeeds exactly for ids in range and a PDU of 1 to 65534 bytes |
| Mbap.FrameBytes | src/pymod/protocol/adu_tcp.py:27-45 | the frame byte by byte: id, zero protocol id, length of what follows, unit id, PDU |
| ServerStream.OneReplyPerRequest | src/pymod/server.py:231-248 | for every byte stream and every behaviour of the callbacks at each request, crashes and wrong results included, the output decodes to exactly one message per well-formed request, in order, with its ids and the dispatcher's answer, and nothing left over |
| ServerStream.OnClient | src/pymod/server.py:231-248 | the connection loop produces those bytes for every callback behaviour |
| ServerStream.OnSimClient | src/pymod/server.py:231-248 | with the simulator behind the loop, each reply is computed from the store as the earlier requests left it, and the final store is that of the requests in order |
| Server.Dispatch | src/pymod/server.py:271-285 | for every PDU and callback behaviour the answer is a normal response to the requested function or a two-byte exception, of at most 252 bytes |
| Server.ReadAgreement | src/pymod/server.py:287-304 | the client decoder recovers the callback's values or the exception code it raised |
| Server.SingleWriteAgreement | src/pymod/server.py:306-361 | FC05 and FC06: on_write gets exactly the area, address and cell that the client encoded, and the client sees the echo, the code raised, a failed device or an illegal function, as the callback alone determines |
| Server.MultipleWriteAgreement | src/pymod/server.py:306-361 | the same for FC15 and FC16, whose echo is the number of cells |
| Server.Unasked | src/pymod/server.py:271-333 | for all PDUs and callbacks: a foreign unit id is answered with code 11, an empty request, an unknown function or a write without on_write with code 1 |
| Server.MalformedRejected | src/pymod/server.py:287-333 | a request that is no encoding of any request, FC15 padding aside, is answered with code 3 |
| Server.AreaProtection | src/pymod/server.py:287-333 | no sequence of arbitrary requests changes input registers or discrete inputs; a read-only server changes nothing; holding registers stay 16-bit |
| Server.ToIntList | src/pymod/server.py:371-382 | the collecting loop accepts exactly lists of the right length with 16-bit values |
| Server.ParseWrite | src/pymod/server.py:306-330 | a write request can only target coils, or holding registers with 16-bit values |
| Server.SimServer.DispatchPdu | src/pymod/server.py:271-285 | response and new store of the dispatcher over the simulator |
| Server.SimServer.HandlePdu | src/pymod/server.py:287-333 | handling reads and writes the store object as the handler function says |
| SimStore.ReadAfterWrite | src/pymod/cli.py:704-729 | a read of just-written cells returns them |
| SimStore.SimState.Read | src/pymod/cli.py:704-719 | all cells, or illegal data address if one is unmapped |
| SimStore.SimState.Write | src/pymod/cli.py:721-729 | sets consecutive cells of one area and nothing else |
| Pdu.ReadRequestRoundTrip | src/pymod/protocol/pdu.py:339-373 | the server reads out of a read request what the client put in, for all four read functions |
| Pdu.WriteCoilRoundTrip | src/pymod/protocol/pdu.py:376-385 | the same for FC05 |
| Pdu.WriteRegisterRoundTrip | src/pymod/protocol/pdu.py:388-393 | the same for FC06 |
| Pdu.WriteCoilsRoundTrip | src/pymod/protocol/pdu.py:396-416 | the same for FC15, including bit packing |
| Pdu.WriteRegistersRoundTrip | src/pymod/protocol/pdu.py:419-436 | the same for FC16 |
| Pdu.ResponseRoundTrip | src/pymod/protocol/pdu.py:442-493 | the client recovers bits, registers, echoes and exception codes from every response the server can encode |
| Pdu.RegsAcceptedOnlyIfExact | src/pymod/protocol/pdu.py:156-172 | a register response is accepted exactly when it is the encoding of the values returned |
| Pdu.EncodeRead | src/pymod/protocol/pdu.py:98-153 | succeeds exactly for a 16-bit start and a count within the area's limit |
| Pdu.ReadRequestBytes | src/pymod/protocol/pdu.py:98-153 | the four read requests byte by byte with literal function codes, and their exact ranges |
| Pdu.WriteRequestBytes | src/pymod/protocol/pdu.py:186-270 | the four write requests byte by byte with literal function codes, coil codes and limits |
| Pdu.ResponseBytes | src/pymod/protocol/pdu.py:442-493 | every response of the server byte by byte |
| Pdu.ReadAcceptedOnlyIfExact | src/pymod/protocol/pdu.py:339-373 | the server accepts a read request exactly when it is the encoding of one, else code 3 |
| Pdu.SingleWriteAcceptedOnlyIfExact | src/pymod/protocol/pdu.py:376-393 | the same for FC05 and FC06 |
| Pdu.MultipleWriteAcceptedOnlyIfExact | src/pymod/protocol/pdu.py:396-436 | the same for FC16, and for FC15 up to padding bits |
| Pdu.EchoVerdict | src/pymod/protocol/pdu.py:73-283 | which write echoes the client accepts, and what every other answer is reported as |
| Pdu.ReadVerdict | src/pymod/protocol/pdu.py:73-181 | which read responses the client accepts, what their bytes spell, and what every other answer is reported as |
| Packing.UnpackPackBits | src/pymod/protocol/pdu.py:442-448 | unpacking packed coils returns them, and every padding bit is zero |
| Packing.PackBitsAt | src/pymod/protocol/pdu.py:231-241 | coil i is bit i % 8 of byte i / 8, and the rest of the last byte is zero |
| Packing.PackBitsLoop | src/pymod/protocol/pdu.py:236-241 | the in-place packing loop computes the packed bytes |
| Packing.UnpackBitsLoop | src/pymod/protocol/pdu.py:126-130 | the unpacking loop computes the coils |
| RegisterCodec.CodecBijection | src/pymod/codec/values.py:51-92 | for every integer dtype, floats as byte patterns, and every order: a value list encodes to a register block exactly when the block decodes to the list with each value as its type's integer; values already of their type are unchanged |
| RegisterCodec.EncodeSucceeds | src/pymod/codec/values.py:118-139 | encoding succeeds exactly when every value is an int, bool or whole-valued double in its integer type's range, or a pattern of its float type's width |
| RegisterCodec.WholeIffInteger | src/pymod/codec/values.py:128-131 | a double is taken as the integer n exactly when it is finite and equal to n |
| RegisterCodec.CoerceMeaning | src/pymod/codec/values.py:126-139 | the integer that a value stands for: itself, 1 and 0 for True and False, and for a double the number it denotes if that is an integer; nothing else stands for one |
| RegisterCodec.DoubleDenotes | src/pymod/codec/values.py:126-131 | which real number eight bytes denote, by sign, biased exponent and fraction; all ones in the exponent denote none |
| RegisterCodec.DecodeSucceeds | src/pymod/codec/values.py:51-73 | decoding succeeds exactly on a whole number of items of 16-bit registers |
| RegisterCodec.EncodeRegisters | src/pymod/codec/values.py:76-92 | an encoded list has registers-per-item registers per value |
| RegisterCodec.OneItemInverse | src/pymod/codec/values.py:98-139 | one value, as its type's integer, and its bytes determine each other |
| RegisterCodec.PowerOfWidth | src/pymod/codec/values.py:34-41 | the literal ranges are the two's complement ranges of their width |
| RegisterCodec.LittleLittleIsWireLE | src/pymod/codec/_common.py:27-42 | with both orders little an item is the little-endian reading of its wire bytes |
| RegisterCodec.BytesRegistersInverse | src/pymod/codec/_common.py:27-60 | the two byte helpers undo each other, both ways round |
| RegisterCodec.RegistersToBytesLoop | src/pymod/codec/_common.py:36-42 | the range-checking loop rejects exactly values outside 16 bits |
| RegisterCodec.ReverseInPlace | src/pymod/codec/_common.py:58-59 | the list is reversed in place |
| RegisterCodec.BytesToRegistersLoop | src/pymod/codec/_common.py:45-60 | collects registers and reverses them for little word order |
| RegisterCodec.DecodeRegistersLoop | src/pymod/codec/values.py:62-73 | the window loop computes the decoded list or the first error |
| RegisterCodec.EncodeRegistersLoop | src/pymod/codec/values.py:87-92 | the extend loop computes the register list or the first error |
| BitExtraction.ExtractBitClosedForm | src/pymod/codec/bits.py:44-58 | for any number of registers: which register and which bit of it an extracted bit is, under every word order, byte order and numbering |
| BitExtraction.BitsRebuildInteger | src/pymod/codec/bits.py:35-41 | all bits of a block weighted by powers of two rebuild its unsigned value |
| BitExtraction.DecodedIsWeighted | src/pymod/codec/values.py:98-115 | a decoded integer is the weighted sum of the bits extracted from its registers, the top bit counting negative in a signed type |
| BitExtraction.DecodedPatternIsWeighted | src/pymod/codec/values.py:98-115 | a decoded float is the byte pattern with exactly those bits |
| BitExtraction.ExtractBitDomain | src/pymod/codec/bits.py:44-58 | extraction succeeds exactly for an index inside the block and 16-bit registers |
| BitExtraction.ExtractBitsPointwise | src/pymod/codec/bits.py:61-80 | the list form is the single form at each index, in order, and fails on an empty or invalid block or when one index does |
| Client.Execute | src/pymod/client.py:176-200 | the attempt loop ends with its first final outcome or at the limit, all earlier attempts having failed with a retryable error |
| Client.StopsAtFirst | src/pymod/client.py:176-200 | the first attempt that succeeds, or fails with an error not to be retried, is the last one made and gives the result; if all fail with errors to be retried all are made and the last is raised |
| Client.EndedOnce | src/pymod/client.py:176-200 | the outcomes of the attempts determine the result and the number of sends |

## Left out

- Sockets, asyncio scheduling, `_BackgroundLoop` and the synchronous client facade: only the steps between awaits are modelled.
- `src/pymod/transport/serial.py`: timing gaps and executor threads of a serial port.
- Task cancellation in the RTU-over-TCP transport, and cancellation of a TCP call before it has an id.
- Which read task a TCP teardown cancels: the model lets any frame arrive at any time, which includes every choice.
- IEEE conversion: a float is its 4- or 8-byte pattern. Which real number a double denotes is stated; rounding is not.
- RegisterCodec.EncodeOne: refuses an int or bool given for a float dtype, and keeps a float as the pattern of its own width; the rounding of struct to float32 and of float() from an int is not modelled.
- RegisterCodec.EncodeSucceeds: float dtypes hold for byte patterns only, as above, because IEEE rounding belongs to Python's struct module.
- RegisterCodec.CodecBijection: float dtypes hold for byte patterns only, as above, because IEEE rounding belongs to Python's struct module.
- RegisterCodec.OneItemInverse: float dtypes hold for byte patterns only, as above, because IEEE rounding belongs to Python's struct module.
- WritePlan.PlanWrites: float dtypes hold for byte patterns only, as above, because IEEE rounding belongs to Python's struct module.
- EndToEnd.WriteThenRead: float dtypes hold for byte patterns only, as above, because IEEE rounding belongs to Python's struct module.
- ReadExecute.DecodeCellsOf: the message text of a decode failure is not kept, only that the item failed.
- The custom codec registry, connection counting, start and stop of the server, retry delays, the command line, the wizard and logging: they would only add easy members.
- Requests whose range passes the top of the 16-bit address space: the encoders check only the start address, and the end-to-end theorem assumes the range fits.
