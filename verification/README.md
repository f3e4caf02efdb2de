# Verified model of the pluvio collectives and runtime

This project models two parts of pluvio and proves what they promise.

**The UCX collectives as asynchronous protocols.** Plain ring, pipelined ring, recursive doubling, Bruck
allgather and binomial broadcast each appear twice. Once as one rank's code: a method that updates the flat
buffer in place, with the source's loops, index arithmetic, checks and error order, taking the messages it
receives as parameters and returning what it sends under which key. And once as a network of `n` such ranks: a
state machine whose steps (post, complete a send, deliver a message, finish a step) interleave freely, so that
theorems quantify over every rank count, every timing and, call by call, every buffer division and every
in-flight window: back-to-back calls may differ in both. A run is any finite sequence of enabled events;
messages are delivered in any order through the slot map of the active-message router, including its branch that
drops two early arrivals. Lemmas join the two views: `RingResult` and `Bruck.CallGathers` show that a rank whose
inbox is what its peers send computes what the network theorems say, `RingMemory` that the interleaved steps of
all chains of a rank may share one flat buffer.

**The single-threaded executor.** The growing SPSC ring buffer is a class with explicit slot initialization,
proved to be a FIFO queue. The run loop is a state machine (slab with key reuse, two queues, batches, join
handles) and a class `Runtime.Loop` that records its own run of that machine. The reactor section of the loop,
with its interval, cached status and safety override, is modelled on its own.

The reduction operator is abstract everywhere. Results about the rings need no law at all, agreement after
recursive doubling needs commutativity, and only the equality of ring and recursive doubling needs associativity
too; wrapping `u32` addition and exclusive-or are shown to have both laws. The intended meaning is that of
MPI 3.1, section 5.9.6 (All-Reduce), section 5.7 (Gather-to-all) and section 5.4 (Broadcast).

## Layout

| files | content |
|---|---|
| `RingIndex`, `Division`, `Doubling`, `RingFold`, `RingBuffers` | rank arithmetic, quotients, powers of two, folds, slots of a flat buffer |
| `Wire`, `RouterSlots`, `RecvWorld`, `AmRouter` | header and tag encodings, the router as a value, all interleavings of receives, the router and receive futures as objects |
| `RingLocal`, `RingRank` | one ring step on a row of chunks; one rank's whole ring allreduce, in place |
| `RingNet`, `RingRows`, `RingInvariant`, `RingSteps`, `RingPreserved`, `RingTheorems` | the ring network, the closed form of what every chunk holds, the invariant and its preservation, the theorems |
| `RingMemory`, `RingResult`, `RingCall` | the ring network on one flat buffer per rank, with all interleavings of chains; the link to the loops and to flat results; one rank's call seen from outside |
| `RdNet`, `RdRank` | recursive doubling, network and rank |
| `ExchangeNet`, `Bruck`, `Broadcast` | asynchronous rounds in general, and the two collectives that are instances |
| `Ops`, `Allreduce`, `AllreduceRuns`, `Adaptive` | bulk reduction, operator laws, the adaptive choice over runs, the adaptive call of one rank |
| `Fifo`, `Spsc` | the channel as a queue, the ring buffer as its implementation |
| `Executor`, `ExecutorWait`, `LoopTrace`, `LoopEnds`, `Runtime`, `ReactorPolling` | the run loop as a machine, bounded waiting, what a run of the loop does with each future, why it ends, the loop itself, reactor polling |

## Assumptions

- A rank number is cast to `u16` in a key, so the active-message theorems take `n <= 65536`; the source checks
  `micro_chunks <= 255` itself.
- Every message that is sent can be delivered, in any order; sends complete at any time, before or after the
  delivery. No progress theorem relies on a send that completes before its delivery or, for the rings and
  recursive doubling, before a receive has matched it. Recursive doubling matches messages of one sender,
  destination and tag in sending order.
- All ranks call the same collective with the same shape, and nobody drops a collective future half way.
- Bruck and broadcast results are about one call. The rings and recursive doubling run any number of calls back
  to back without a barrier in between.
- Payloads of one collective have equal lengths. With unequal lengths a receive copies the shorter length and
  completes anyway, as `RecvWorld.Overlay` says.
- A future is given by its behaviour: its effects and its outcome as a function of the task and of how many polls
  were made before. The theorems hold for every such function, so for whatever the values it reads make a future do.
- Tasks do not call back into the run loop, so a dequeued id whose slot is occupied is always there to be taken.
- The integers `iteration`, `head`, queue capacities and counters are unbounded.

Where comment and code differ, the code is followed: the safety counter of the run loop counts every iteration
that was due to poll reactors and in which no task of the normal queue finished, whether or not a reactor was
`Running` and whatever finished on the polling queue.

## Model

| member | source | states |
|---|---|---|
| `RingTheorems.ResultIsRingFold` | pluvio_collective/src/ucx_backend/pipelined_ring.rs:249-394 | in every run, every returned chunk is the fold of all ranks' inputs in ring order from the rank the chunk is numbered after, for an operator without laws |
| `RingTheorems.ResultsAgree` | pluvio_collective/src/ucx_backend/pipelined_ring.rs:249-394 | all ranks return identical buffers, call by call |
| `RingTheorems.PartialFoldsInRun` | pluvio_collective/src/ucx_backend/ring.rs:88-121 | at any moment of any run, the chunk received in reduce-scatter step `s` is the fold of `s + 2` consecutive inputs, and after the last step the rank owns the full fold of chunk `rank + 1` |
| `RingTheorems.PhasesStayTogether` | pluvio_collective/src/ucx_backend/pipelined_ring.rs:186-241 | across back-to-back calls, each with its own micro-chunks and windows, the phase numbers of two ranks differ by at most one in every reachable state |
| `RingTheorems.OneMessagePerKey` | pluvio_collective/src/ucx_backend/am_router.rs:144-180 | no receiver has two unconsumed messages under one key, on the wire or buffered, although keys do not name the call and a chain may be absent from some calls |
| `RingTheorems.RouterNeverDrops` | pluvio_collective/src/ucx_backend/am_router.rs:118-180 | in ring runs, whatever the divisions of the calls, the branch that drops two messages is never taken, and no receive is registered over another |
| `RingTheorems.WindowRespected` | pluvio_collective/src/ucx_backend/pipelined_ring.rs:187-241 | a rank never has more chains pushed and unfinished than the present call passed as its window |
| `RingTheorems.WindowFilled` | pluvio_collective/src/ucx_backend/pipelined_ring.rs:187-213 | no chain of a rank takes a step before all are pushed or exactly as many are open as the call's window allows |
| `RingTheorems.SendBufferStable` | pluvio_collective/src/ucx_backend/pipelined_ring.rs:271-325 | while a zero-copy send is outstanding, the chunk it reads and the message on the wire hold what was posted, even after the receive of the same step has landed |
| `RingMemory.BufferShowsRows` | pluvio_collective/src/ucx_backend/pipelined_ring.rs:186-241 | for any interleaving of the chains' writes into one flat buffer, the buffer shows at every moment exactly the rows of the ring network: no chain writes into another's slots |
| `RingMemory.SendSlotUntouched` | pluvio_collective/src/ucx_backend/pipelined_ring.rs:271-325 | on that buffer, while a send is outstanding the slot it reads holds the bytes it was posted with, whatever the other chains do |
| `RingTheorems.NeverDeadlocked` | pluvio_collective/src/ucx_backend/pipelined_ring.rs:187-241 | deadlock freedom: in every reachable state in which some rank is unfinished an event is enabled, and one that completes no send before a receive has matched it |
| `RingTheorems.MeasureDecreases` | pluvio_collective/src/ucx_backend/pipelined_ring.rs:265-325 | every event lowers the remaining work by exactly one |
| `RingTheorems.RunsEnd` | pluvio_collective/src/ucx_backend/pipelined_ring.rs:186-246 | a run has at most `n` times the sum over its calls of `2 * (micro_chunks * (4 * n - 3) + 1)` events |
| `RingTheorems.StuckMeansDone` | pluvio_collective/src/ucx_backend/pipelined_ring.rs:186-246 | a run in which only unmatched sends could complete has exactly that many events, has returned every call on every rank and left no message or registration |
| `RingPreserved.RunInv` | pluvio_collective/src/ucx_backend/pipelined_ring.rs:186-325 | the invariant (closed form of all chunks, counters, keys, slots) holds in every state of every run |
| `RingPreserved.StepPreserves` | pluvio_collective/src/ucx_backend/pipelined_ring.rs:186-325 | each event of any rank or the network keeps the invariant |
| `RingInvariant.PhaseSkew` | pluvio_collective/src/ucx_backend/pipelined_ring.rs:186-241 | the counters alone force neighbouring phase numbers |
| `RingIndex.StepIdx` | pluvio_collective/src/ucx_backend/ring.rs:90-126 | the send and receive chunk of a step, as walks round the ring, and that they differ |
| `RingIndex.SenderMatchesReceiver` | pluvio_collective/src/ucx_backend/ring.rs:90-126 | what the predecessor sends in a step is the chunk received in that step |
| `RingRows.ReduceRow` | pluvio_collective/src/ucx_backend/pipelined_ring.rs:319-324 | reducing the received chunk extends exactly that chunk by one hop of the fold |
| `RingRows.StoreRow` | pluvio_collective/src/ucx_backend/pipelined_ring.rs:343-392 | storing the received chunk completes exactly that chunk |
| `RingRank.ScatterStep` | pluvio_collective/src/ucx_backend/pipelined_ring.rs:265-324 | one step in place: which chunk is posted under which key, which key is awaited, the new row, and that no other row changes |
| `RingRank.GatherStep` | pluvio_collective/src/ucx_backend/pipelined_ring.rs:343-392 | the same for allgather, receiving straight into the buffer |
| `RingRank.ReduceScatterChain` | pluvio_collective/src/ucx_backend/pipelined_ring.rs:249-326 | the chain's row after all steps and its whole exchange log |
| `RingRank.AllgatherChain` | pluvio_collective/src/ucx_backend/pipelined_ring.rs:329-394 | the same for the second phase |
| `RingRank.BuildSlots` | pluvio_collective/src/ucx_backend/pipelined_ring.rs:153-167 | the slot table lists the slots of the buffer in order |
| `RingRank.PumpPhase` | pluvio_collective/src/ucx_backend/pipelined_ring.rs:186-213 | whichever open chain finishes first, a phase runs every chain once on its own row, and each leaves the log its messages demand |
| `RingRank.Launch` | pluvio_collective/src/ucx_backend/pipelined_ring.rs:190-209 | after each push fewer chains are open than the window allows, and one finishes exactly when as many have been launched |
| `RingRank.Drain` | pluvio_collective/src/ucx_backend/pipelined_ring.rs:210-212 | the remaining open chains run, once each |
| `RingRank.PipelinedRing` | pluvio_collective/src/ucx_backend/pipelined_ring.rs:114-246 | each error with its own condition, in the order of the checks; one rank, or an error, sends and changes nothing; every other call makes all exchanges and, if it hears the ring, returns the flat ring result of all inputs |
| `RingRank.RingAllreduce` | pluvio_collective/src/ucx_backend/ring.rs:61-157 | each error with its own condition; one rank, or an error, sends and changes nothing; every call on two ranks or more with an endpoint and a length that divides makes `n - 1` exchanges per phase and, if it hears the ring, returns the flat ring result of all inputs |
| `RingCall.CallReturns` | pluvio_collective/src/ucx_backend/pipelined_ring.rs:169-246 | a call whose chains hear in every step the folds and totals of all ranks' buffers leaves the flat ring result, for every rank count and division |
| `RingCall.CallValid` | pluvio_collective/src/ucx_backend/pipelined_ring.rs:128-137 | the configurations admitted are exactly those of the ring machine's calls |
| `RingCall.TilesExactly` | pluvio_collective/src/ucx_backend/pipelined_ring.rs:139-145 | the two divisibility checks pass exactly when some slot length tiles the buffer |
| `RingBuffers.SlotsPartition` | pluvio_collective/src/ucx_backend/pipelined_ring.rs:154-167 | every position of the buffer lies in exactly one slot |
| `RingBuffers.SlotNumber` | pluvio_collective/src/ucx_backend/pipelined_ring.rs:154-167 | a slot number determines chunk and micro-chunk, so two chains share no slot |
| `RingBuffers.RewriteSlot` | pluvio_collective/src/ucx_backend/pipelined_ring.rs:271-284 | rewriting one slot changes one cell of one row and nothing else |
| `RingBuffers.TableOffset` | pluvio_collective/src/ucx_backend/pipelined_ring.rs:158-160 | the two-level offset of the table is the slot number times the slot length |
| `RingResult.ChainFollowsRing` | pluvio_collective/src/ucx_backend/pipelined_ring.rs:265-325 | a chain fed with the ring's payloads holds the closed form after each step and sends the ring's payloads |
| `RingResult.TrafficIsDetermined` | pluvio_collective/src/ucx_backend/ring.rs:88-154 | ranks that receive what their predecessors' loops send exchange exactly the ring's payloads, whatever the timing |
| `RingResult.CallReduces` | pluvio_collective/src/ucx_backend/ring.rs:88-154 | a whole call of one rank's loops leaves every chunk reduced |
| `RingResult.MicroChunksInvisible` | pluvio_collective/src/ucx_backend/pipelined_ring.rs:153-167 | the result read as one flat buffer does not depend on the number of micro-chunks, one included, for an operator without laws |
| `AllreduceRuns.RingRunReturnsBuffer` | pluvio_collective/src/ucx_backend/pipelined_ring.rs:114-246 | every result of every run, slot by slot, is the flat ring result of the flat inputs |
| `AllreduceRuns.RingRunFolds` | pluvio_collective/src/ucx_backend/ring.rs:61-157 | with both laws every element of the ring result is the fold of that position in rank order |
| `AllreduceRuns.RdRunFolds` | pluvio_collective/src/ucx_backend/recursive_doubling.rs:77-132 | with both laws every result of every run of recursive doubling is the same fold |
| `AllreduceRuns.PolicyRunFolds` | pluvio_collective/src/ucx_backend/adaptive.rs:137-155 | whichever algorithm the policy picks, every buffer that any rank returns in any run of it holds at every position the fold of all ranks' elements in rank order |
| `RdNet.BlocksAgreeInRun` | pluvio_collective/src/ucx_backend/recursive_doubling.rs:80-132 | in any interleaving, ranks of an aligned block of `2^round` at the same round hold the same value, and finished calls agree everywhere, given commutativity only |
| `RdNet.ResultIsTree` | pluvio_collective/src/ucx_backend/recursive_doubling.rs:80-132 | without any law a result is the value of the rank's exchange tree |
| `RdNet.NeverDeadlocked` | pluvio_collective/src/ucx_backend/recursive_doubling.rs:80-132 | deadlock freedom in every reachable state, over any number of calls, by an event that completes no unmatched send |
| `RdNet.RunsEnd` | pluvio_collective/src/ucx_backend/recursive_doubling.rs:80-132 | no run is longer than four events per rank and round and one per call |
| `RdNet.StuckMeansDone` | pluvio_collective/src/ucx_backend/recursive_doubling.rs:80-132 | a run in which only unmatched sends could complete has exactly that many events and every result |
| `RdNet.StepPreserves` | pluvio_collective/src/ucx_backend/recursive_doubling.rs:80-132 | every event keeps what each buffer and each tag queue holds |
| `RdRank.RecursiveDoubling` | pluvio_collective/src/ucx_backend/recursive_doubling.rs:59-134 | the loop in place: log, buffer after each round, stop at the first missing endpoint, and the exchange tree's value if the rank hears its peers; when `n` is no power of two, the ring's errors, logs and result |
| `RdRank.RoundsClimbTree` | pluvio_collective/src/ucx_backend/recursive_doubling.rs:80-132 | a rank that receives its peers' trees climbs its own |
| `RdRank.AwaitsPeer` | pluvio_collective/src/ucx_backend/recursive_doubling.rs:102-103 | in every round two peers await what the other sends |
| `RdRank.RoundsHaveDistinctKeys` | pluvio_collective/src/ucx_backend/recursive_doubling.rs:102-103 | no two rounds of a call share a key, to send or to receive |
| `Doubling.PowerOfTwoExact` | pluvio_collective/src/ucx_backend/recursive_doubling.rs:72-77 | the test accepts powers of two and the round count is the exponent |
| `Doubling.PeerFlipsOneBit` | pluvio_collective/src/ucx_backend/recursive_doubling.rs:81-81 | the peer is the rank with bit `r` flipped and no other |
| `Doubling.PeerBlock` | pluvio_collective/src/ucx_backend/recursive_doubling.rs:81-81 | peers are mutual, distinct and share the block twice as large |
| `Doubling.BlockAgrees` | pluvio_collective/src/ucx_backend/recursive_doubling.rs:77-132 | commutativity alone makes the exchange trees of an aligned block equal |
| `Allreduce.ChoiceInvisible` | pluvio_collective/src/ucx_backend/adaptive.rs:58-69 | for an associative and commutative operator the closed forms of all accepted choices are, on every rank, the pointwise fold of the inputs; `AllreduceRuns.PolicyRunFolds` says this of runs, `Adaptive.CutOver` what is chosen |
| `Adaptive.CutOver` | pluvio_collective/src/ucx_backend/adaptive.rs:57-70 | recursive doubling exactly below the small threshold on `2^k` ranks, `k >= 1`; pipelining only from the large threshold on and with the policy's own configuration, and always from both on; the plain ring only below it, and always between the two |
| `Adaptive.SmallNeverRejected` | pluvio_collective/src/ucx_backend/adaptive.rs:57-70 | a small message on a power of two of ranks is accepted whatever its length |
| `Adaptive.DefaultAccepts` | pluvio_collective/src/ucx_backend/adaptive.rs:46-70 | what the default policy accepts, in closed form |
| `Adaptive.AllreduceAdaptively` | pluvio_collective/src/ucx_backend/adaptive.rs:137-155 | a call succeeds exactly when the chosen algorithm accepts the buffer and has its endpoints; with both laws every position then holds the fold of all ranks' elements in rank order |
| `Adaptive.KindsApart` | pluvio_collective/src/ucx_backend/recursive_doubling.rs:26-26 | the phases of ring, recursive doubling, Bruck and broadcast differ, so no two kinds of collective share a key |
| `Allreduce.TreeIsRange` | pluvio_collective/src/ucx_backend/adaptive.rs:137-155 | the exchange tree re-associates to the fold of its block in rank order |
| `Allreduce.RingIsRange` | pluvio_collective/src/ucx_backend/adaptive.rs:137-155 | ring order from any chunk folds to rank order |
| `Allreduce.IntegerOperatorsQualify` | pluvio_collective/src/op.rs:128-156 | wrapping `u32` sum and exclusive-or are associative and commutative |
| `Ops.ReduceInPlace` | pluvio_collective/src/op.rs:23-42 | the 8-lane blocks with remainder equal the pointwise combination, for every length, and touch nothing outside the slice |
| `Ops.WrappingAddLaws` | pluvio_collective/src/op.rs:128-136 | the laws and the identity of wrapping addition |
| `Ops.BitXorLaws` | pluvio_collective/src/op.rs:143-152 | the laws of exclusive-or |
| `Wire.Encode` | pluvio_collective/src/ucx_backend/am_router.rs:31-39 | the eight bytes of a header |
| `Wire.HeaderRoundTrip` | pluvio_collective/src/ucx_backend/am_router.rs:31-54 | decoding inverts encoding whatever follows, fails exactly on short buffers and then reports both lengths, and an accepted buffer starts with the encoding of the result |
| `Wire.EncodingInjective` | pluvio_collective/src/ucx_backend/am_router.rs:31-54 | equal encodings mean equal headers |
| `Wire.ChainKeyInjective` | pluvio_collective/src/ucx_backend/pipelined_ring.rs:285-297 | a key identifies sender, step, phase and micro-chunk while the casts lose nothing |
| `RingRank.ExchangesHaveDistinctKeys` | pluvio_collective/src/ucx_backend/pipelined_ring.rs:285-297 | all receives one rank posts within a call have distinct keys, and so have its sends |
| `RingRank.AwaitsPredecessor` | pluvio_collective/src/ucx_backend/pipelined_ring.rs:285-297 | a rank awaits in every step what its predecessor's loop sends in that step, under the same key |
| `Wire.TagFields` | pluvio_collective/src/ucx_backend/tag.rs:13-18 | every field can be read back from a tag and the upper 16 bits are zero |
| `Wire.TagInjective` | pluvio_collective/src/ucx_backend/tag.rs:13-18 | equal tags mean equal fields, the rank modulo 65536 |
| `Wire.TagsNameKeys` | pluvio_collective/src/ucx_backend/tag.rs:13-18 | for ranks of 16 bits two tags agree exactly when the receive keys of the same steps do |
| `ExchangeNet.AsyncIsLockstep` | pluvio_collective/src/ucx_backend/bruck.rs:80-142 | in any interleaving a rank's memory is its lockstep memory after the rounds it has received in, each arrival carries the sender's lockstep bytes, and the router drops nothing |
| `ExchangeNet.SendBufferStable` | pluvio_collective/src/ucx_backend/bruck.rs:91-105 | an outstanding send still reads the bytes it was posted with |
| `ExchangeNet.NeverDeadlocked` | pluvio_collective/src/ucx_backend/bruck.rs:80-142 | in every reachable state with an unfinished rank an event is enabled, a send completion only when nothing is on the wire |
| `ExchangeNet.StuckMeansDone` | pluvio_collective/src/ucx_backend/bruck.rs:80-142 | a run that could continue at most by completing sends while messages are still on the wire has all ranks through all rounds with nothing left over |
| `ExchangeNet.RunsEnd` | pluvio_collective/src/ucx_backend/bruck.rs:80-142 | at most four events per rank and round |
| `ExchangeNet.EverySendArrives` | pluvio_collective/src/ucx_backend/broadcast.rs:74-131 | conservation: every scheduled send is delivered exactly once |
| `ExchangeNet.StepPreserves` | pluvio_collective/src/ucx_backend/bruck.rs:80-142 | every event keeps the invariant of memories, messages and slots |
| `Bruck.AllgatherCorrect` | pluvio_collective/src/ucx_backend/bruck.rs:54-155 | for every `n` and block length, a run that cannot continue leaves on every rank a buffer whose rotation holds rank `g`'s data in block `g`, and nothing left over |
| `Bruck.SlotsHoldInRun` | pluvio_collective/src/ucx_backend/bruck.rs:78-142 | in every reachable state slot `k` below the count holds the contribution of rank `(r + k) mod n` |
| `Bruck.RoundsExact` | pluvio_collective/src/ucx_backend/bruck.rs:78-82 | the loop runs `ceil(log2 n)` rounds, the last one short when `n` is no power of two |
| `Bruck.PeersMatch` | pluvio_collective/src/ucx_backend/bruck.rs:82-83 | send and receive peer are inverse and name another rank |
| `Bruck.AllgatherApart` | pluvio_collective/src/ucx_backend/bruck.rs:91-105 | the slots sent and the slots received into are disjoint in every round |
| `Bruck.RoundHolds` | pluvio_collective/src/ucx_backend/bruck.rs:81-142 | one round extends what the slots hold to the larger count, both peers agreeing on the size |
| `Bruck.RotationGathers` | pluvio_collective/src/ucx_backend/bruck.rs:144-153 | the rotation puts every contribution in its rank's block |
| `Bruck.Exchange` | pluvio_collective/src/ucx_backend/bruck.rs:78-142 | the doubling loop in place: buffer, log, and the round at which a missing endpoint stops it |
| `Bruck.Rotate` | pluvio_collective/src/ucx_backend/bruck.rs:148-153 | slot `k` ends in slot `(rank + k) mod n` |
| `Bruck.BruckAllgather` | pluvio_collective/src/ucx_backend/bruck.rs:54-155 | the shape check, the one-rank copy, and the whole call |
| `Bruck.CallGathers` | pluvio_collective/src/ucx_backend/bruck.rs:80-153 | a call whose inbox is what its peers hold gathers all contributions |
| `Bruck.AwaitsSource` | pluvio_collective/src/ucx_backend/bruck.rs:105-120 | a rank awaits in every round what its source's loop sends in it, and the rank it sends to awaits it |
| `Broadcast.BroadcastCorrect` | pluvio_collective/src/ucx_backend/broadcast.rs:67-133 | for every `n` and root, a run that cannot continue has delivered exactly `n - 1` messages, left none, and every rank holds the root's buffer |
| `Broadcast.SpreadsInRun` | pluvio_collective/src/ucx_backend/broadcast.rs:72-131 | in every reachable state a rank that has been through `k` rounds holds the root's buffer if its logical number is below `2^k`, and its own otherwise |
| `Broadcast.RoundsExact` | pluvio_collective/src/ucx_backend/broadcast.rs:69-74 | the loop runs `ceil(log2 n)` rounds |
| `Broadcast.ScheduleExact` | pluvio_collective/src/ucx_backend/broadcast.rs:82-128 | the bit tests amount to: logical rank `l < 2^j` sends to `l + 2^j`, and receives come from `l - 2^j` |
| `Broadcast.SendsMeetReceives` | pluvio_collective/src/ucx_backend/broadcast.rs:82-128 | sends and receives match one to one by source, destination and round |
| `Broadcast.ReceivesOnce` | pluvio_collective/src/ucx_backend/broadcast.rs:113-129 | the root never receives, every other rank in exactly one round, which the loop reaches |
| `Broadcast.AwaitedIsSent` | pluvio_collective/src/ucx_backend/broadcast.rs:82-128 | the key a rank awaits is one under which another rank's loop sends to it |
| `Broadcast.HaveDataExact` | pluvio_collective/src/ucx_backend/broadcast.rs:72-129 | `have_data` at round `j` means a logical number below `2^j` |
| `Broadcast.OneSendPerReceiver` | pluvio_collective/src/ucx_backend/broadcast.rs:82-112 | the schedule has exactly `n - 1` sends |
| `Broadcast.BroadcastEnds` | pluvio_collective/src/ucx_backend/broadcast.rs:74-133 | no rank waits forever, nor for a send to complete while messages are on the wire, and runs are bounded |
| `Broadcast.TwoCallsLoseBoth` | pluvio_collective/src/ucx_backend/broadcast.rs:82-128 | for every `n >= 2` and root, two broadcasts in a row can leave two messages under one key before logical rank 1 polls; both are dropped and it waits with nothing on its way |
| `Broadcast.TreeApart` | pluvio_collective/src/ucx_backend/broadcast.rs:82-131 | no rank sends and receives in one round |
| `Broadcast.Run` | pluvio_collective/src/ucx_backend/broadcast.rs:48-134 | one rank's call: error order, sends in order, the awaited key, the final buffer |
| `RecvWorld.PendingIffOwned` | pluvio_collective/src/ucx_backend/am_router.rs:105-180 | in every interleaving a key is pending exactly when one live registered unfinished future owns it, so a delivery writes to a live target |
| `RecvWorld.DeliveryOrderInvisible` | pluvio_collective/src/ucx_backend/am_router.rs:144-283 | delivery before or after the first poll leaves the same target, the bytes sent when lengths agree |
| `RecvWorld.LastWakerWoken` | pluvio_collective/src/ucx_backend/am_router.rs:130-172 | a delivery wakes the waker of the most recent poll |
| `RecvWorld.AnswerMeansDone` | pluvio_collective/src/ucx_backend/am_router.rs:251-286 | in every run a poll answers ready exactly when its future is done after it, that is, was done or found a message; one that answers not ready leaves its own waker in the future's registration |
| `RecvWorld.NotReadyThenWoken` | pluvio_collective/src/ucx_backend/am_router.rs:144-286 | no hanging receive: after a poll that answered not ready the next message for the key calls that poll's waker, and later polls answer ready with its bytes |
| `RecvWorld.DropTakesOwn` | pluvio_collective/src/ucx_backend/am_router.rs:289-295 | a drop removes exactly the dropped future's registration; early messages and other registrations stay |
| `RecvWorld.StepPreserves` | pluvio_collective/src/ucx_backend/am_router.rs:105-295 | creating, polling, dropping and delivering keep the router invariant |
| `RecvWorld.TwoEarlyLoseBoth` | pluvio_collective/src/ucx_backend/am_router.rs:146-178 | a second early arrival under one key loses both messages, so the one-message hypothesis is needed |
| `AmRouter.Router.TakeEarly` | pluvio_collective/src/ucx_backend/am_router.rs:105-114 | the map operation, against the router as a value |
| `AmRouter.Router.RegisterPending` | pluvio_collective/src/ucx_backend/am_router.rs:118-126 | the same |
| `AmRouter.Router.UpdateWaker` | pluvio_collective/src/ucx_backend/am_router.rs:130-135 | the same, a no-op unless the key is pending |
| `AmRouter.Router.CancelPending` | pluvio_collective/src/ucx_backend/am_router.rs:139-141 | the same |
| `AmRouter.Router.Deliver` | pluvio_collective/src/ucx_backend/am_router.rs:144-180 | fills, finishes and wakes exactly the owning future, buffers an early arrival, drops both on a duplicate, changes no other future |
| `AmRouter.RecvFuture.Poll` | pluvio_collective/src/ucx_backend/am_router.rs:251-286 | ready exactly when the future is done afterwards, which is when it was done or its first poll found a message; not ready leaves target, done cell and this waker with the router; otherwise as the future as a value, consistency kept |
| `AmRouter.RecvFuture.Dropped` | pluvio_collective/src/ucx_backend/am_router.rs:289-295 | after a drop no registration points at the target |
| `AmRouter.RecvFuture.constructor` | pluvio_collective/src/ucx_backend/am_router.rs:236-245 | a new future for an unused key joins the live ones |
| `Spsc.Inner.TryGrow` | pluvio_runtime/src/executor/spsc.rs:233-273 | growth keeps contents and order, also while wrapped, doubles the capacity, and leaves no value in the old buffer |
| `Spsc.Inner.TrySend` | pluvio_runtime/src/executor/spsc.rs:356-374 | a send is the queue's send: appended, full or disconnected |
| `Spsc.Inner.TryRecv` | pluvio_runtime/src/executor/spsc.rs:410-422 | a receive is the queue's receive |
| `Spsc.Inner.Drop` | pluvio_runtime/src/executor/spsc.rs:307-329 | dropping disposes of every queued value once, in order, and leaves no initialized slot |
| `Spsc.Inner.Len` | pluvio_runtime/src/executor/spsc.rs:217-231 | the length is that of the queue |
| `Spsc.Inner.IsFull` | pluvio_runtime/src/executor/spsc.rs:209-211 | full means as long as the capacity |
| `Spsc.Inner.Bounded` | pluvio_runtime/src/executor/spsc.rs:89-107 | a bounded channel starts empty with the given capacity |
| `Spsc.Inner.Unbounded` | pluvio_runtime/src/executor/spsc.rs:109-127 | an unbounded channel starts empty with capacity at least one |
| `Spsc.Pushed` | pluvio_runtime/src/executor/spsc.rs:285-290 | the slot at `head` is uninitialized, and writing it appends |
| `Spsc.Popped` | pluvio_runtime/src/executor/spsc.rs:298-304 | the slot at `tail` holds the front, and moving it out removes the front |
| `Spsc.RunSession` | pluvio_runtime/src/executor/spsc.rs:356-483 | any sequence of operations on the ring buffer answers as the plain queue |
| `Fifo.FifoConservation` | pluvio_runtime/src/executor/spsc.rs:356-422 | over any sequence, accepted messages are the received ones in order followed by those still queued |
| `Fifo.CapacityKept` | pluvio_runtime/src/executor/spsc.rs:356-374 | a bounded channel is full exactly at its capacity, an unbounded one never, and the queue never exceeds the capacity |
| `Fifo.DisconnectExact` | pluvio_runtime/src/executor/spsc.rs:356-483 | a receive reports disconnection exactly when all that was accepted has been received and no handle is left, counting clones and drops in the history; a send, exactly when the receiver was dropped |
| `Fifo.AnswersExact` | pluvio_runtime/src/executor/spsc.rs:356-483 | every answer of every session is what the operations and answers before it demand: the oldest message not yet received, the message itself back when full or disconnected, empty or disconnected by the handles that exist |
| `Spsc.Inner.CloneSender` | pluvio_runtime/src/executor/spsc.rs:475-484 | one handle more, nothing else changes |
| `Spsc.Inner.DropSender` | pluvio_runtime/src/executor/spsc.rs:138-143 | one handle less, never below zero, nothing else changes |
| `Executor.NoLostWakeup` | pluvio_runtime/src/executor/mod.rs:360-466 | at every moment of every run, an unfinished task woken since its last poll began is in its queue or in the rest of the current batch |
| `Executor.StepPreserves` | pluvio_runtime/src/executor/mod.rs:806-845 | every event keeps: only the running task is out of the slab, keys and wakers are those of the spawn, unfinished tasks have no result |
| `Executor.CompletionWakesWaiter` | pluvio_runtime/src/task/mod.rs:134-148 | completion stores the result and enqueues the task that last saw the handle pending |
| `Executor.ResultTakenOnce` | pluvio_runtime/src/task/mod.rs:64-90 | a task finishes at most once and its result is taken at most once, unchanged |
| `ExecutorWait.BoundedWait` | pluvio_runtime/src/executor/mod.rs:435-466 | an id at position `k` of the normal queue is taken by the end of iteration `k / batch + 1` |
| `ExecutorWait.DequeuedByDrain` | pluvio_runtime/src/executor/mod.rs:435-450 | the drain that takes it, and its place in the batch |
| `ExecutorWait.PollingQueueServed` | pluvio_runtime/src/executor/mod.rs:360-370 | every id in the polling queue at the top of an iteration is taken in it |
| `ExecutorWait.BatchWork` | pluvio_runtime/src/executor/mod.rs:423-466 | a batch costs one step for each id it was drained with; what is enqueued meanwhile waits |
| `ExecutorWait.WokenTaskIsPolled` | pluvio_runtime/src/executor/mod.rs:343-466 | a woken task is polled within one iteration on the polling queue and within `queue / batch + 1` on the normal queue |
| `Runtime.Loop.Spawn` | pluvio_runtime/src/executor/mod.rs:177-288 | a spawn takes an unused key and enqueues it |
| `Runtime.Loop.Wake` | pluvio_runtime/src/task/waker.rs:33-48 | a wake enqueues the id on the task's own queue |
| `Runtime.Loop.PollJoin` | pluvio_runtime/src/task/mod.rs:64-90 | a join poll takes the result or registers the waker |
| `Runtime.Loop.DrainPollingQueue` | pluvio_runtime/src/executor/mod.rs:364-370 | the buffer gets the whole polling queue |
| `Runtime.Loop.DrainNormalQueue` | pluvio_runtime/src/executor/mod.rs:438-450 | the buffer gets one batch from the front |
| `Runtime.Loop.ProcessId` | pluvio_runtime/src/executor/mod.rs:457-466 | one id: skipped, or its task is taken out and polled as its behaviour says, every effect recorded in order, and put back or removed as the behaviour ends |
| `Runtime.Loop.PollTask` | pluvio_runtime/src/executor/mod.rs:806-845 | the record grows by the start of the poll, its effects in order, and its end as the script has it |
| `Runtime.Loop.RunBatch` | pluvio_runtime/src/executor/mod.rs:423-466 | every id of a buffer is served once, in order, each by its own behaviour |
| `Runtime.Loop.FinishPoll` | pluvio_runtime/src/task/mod.rs:134-148 | the end of a poll |
| `Runtime.Loop.RunIteration` | pluvio_runtime/src/executor/mod.rs:343-466 | an iteration is: polling drain, the wakes of the reactors and no others, the drained ids served, then one batch of the normal queue served; polls are counted through |
| `Runtime.Loop.RunQueue` | pluvio_runtime/src/executor/mod.rs:329-466 | an execution is such iterations one after the other, up to an empty slab or the limit; with behaviours that settle and a limit as large as the work it ends with empty queues, and with an empty slab if no poll stays pending without waking its task |
| `LoopTrace.EffectHappens` | pluvio_runtime/src/executor/mod.rs:806-845 | no effect of a poll on an existing task is lost |
| `LoopEnds.ServingWorks` | pluvio_runtime/src/executor/mod.rs:457-466 | every id served, skipped ones included, lowers the work that is left |
| `LoopEnds.LoopComesToRest` | pluvio_runtime/src/executor/mod.rs:343-466 | when futures settle and reactors fall silent, after the stated number of iterations both queues are empty |
| `LoopEnds.LoopCompletes` | pluvio_runtime/src/executor/mod.rs:343-466 | if moreover every task is due at the start and pending polls wake their task, every task has finished by then |
| `ReactorPolling.ReactorLatency` | pluvio_runtime/src/executor/mod.rs:372-421 | a reactor that reports running from iteration `i` is polled within `max(cache, 1) + interval - 1` further iterations, despite one stale status and one safety override |
| `ReactorPolling.OverrideFollowsPoll` | pluvio_runtime/src/executor/mod.rs:389-400 | the safety override takes effect only directly after an iteration that was due to poll |
| `ReactorPolling.LatencyAttained` | pluvio_runtime/src/executor/mod.rs:372-421 | for every interval and cache period, an execution that attains this bound |
| `ReactorPolling.EarlyPolls` | pluvio_runtime/src/executor/mod.rs:372-421 | a reactor that runs from the start is polled in iterations 0 and 1 whatever interval and cache, exactly unless the safety bound is zero, or one and reached |
| `ReactorPolling.PolledMeansRunning` | pluvio_runtime/src/executor/mod.rs:372-421 | a polled reactor is enabled, the iteration was due, and the reactor reported running then or less than a cache period before; it is polled once |
| `ReactorPolling.OverrideExact` | pluvio_runtime/src/executor/mod.rs:389-400 | the override strikes exactly when as many due iterations as the bound have passed without a completed normal task and without an override |
| `ReactorPolling.ZeroBoundStarves` | pluvio_runtime/src/executor/mod.rs:389-400 | with safety bound zero no reactor is ever polled |
| `ReactorPolling.NoStaleStop` | pluvio_runtime/src/executor/mod.rs:308-325 | a stopped status cached before `i` is gone after one cache period |
| `ReactorPolling.Reactors.GetCachedStatus` | pluvio_runtime/src/executor/mod.rs:308-325 | the cached status, refreshed exactly when expired |
| `ReactorPolling.Reactors.PollReactors` | pluvio_runtime/src/executor/mod.rs:403-420 | every enabled reactor is visited once |
| `ReactorPolling.Reactors.RunIteration` | pluvio_runtime/src/executor/mod.rs:352-483 | counters, override and reactor visits of one iteration |

## Left out

- UCX, MPI and io_uring calls, TCP bootstrap, endpoint handling and transport errors: foreign code. An endpoint exists or does not; a send that was posted completes.
- Scatter and the MPI backend: nothing in them is harder than what is modelled here.
- Floating-point operators: the operator is abstract, and ring and recursive doubling are not claimed to agree bit for bit on floats.
- RingRank.PumpPhase: chains run to completion one at a time here, in an order left open. Interleaved steps on one flat buffer are the subject of `RingMemory`, on rows that of `RingNet`.
- RingRank.Drain: the same.
- RingRank.PipelinedRing: the same within each phase.
- RingRank.RingAllreduce: the log names messages by receive keys where the source sends tags; by `Wire.TagsNameKeys` they tell the same messages apart.
- Broadcast.BroadcastCorrect: one call only. Two calls in a row are not safe, because the root waits for no acknowledgement; `Broadcast.TwoCallsLoseBoth` is the run.
- Bruck.BruckAllgather: with more than one rank the block length is at least one, because the source indexes the first element of the send buffer.
- Stale messages after a cancelled receive: the network theorems assume that no receive is dropped while its message is due.
- RecvWorld.DeliveryOrderInvisible: says nothing about reporting a length mismatch, which the source only logs.
- AmRouter.Router.Deliver: calling the waker is returned as a result; what the woken task does is the executor's part.
- Tag matching of the plain ring: modelled as the router, which behaves the same because at most one message per key is unconsumed; by `Wire.TagsNameKeys` tags agree exactly when keys do, and `RingTheorems.NeverDeadlocked` needs no send to complete before it is matched.
- Spsc.Inner.TryGrow: capacities are unbounded integers, so the saturating doubling at the top of `usize` is not modelled.
- Receiver clones, canaries, `recv` spinning and deadlines of the channel.
- Runtime.Loop.RunQueue: the shutdown flag and the stuck counter, which only end the loop earlier, are one iteration limit; idle parking, statistics, names and tracing are not modelled. The queues are sequences, justified by `Spsc.RunSession`.
- Executor.CompletionWakesWaiter: a join handle is polled with the waker of the task that polls it; wakers wrapped by combinators are not modelled.
- `block_on` and `progress`: the same steps in another order. `block_on` may return late when a slab key is reused.
- ReactorPolling.ReactorLatency: assumes that the reactor is registered and enabled from the start and that the loop keeps iterating.
- Worker activation counts, timers, the fixed-buffer allocator and the MPI request list.
