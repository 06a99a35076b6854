# RK-AVP core runtime: a verified model

RK-AVP runs media graphs. Its platform-independent core (`src/core`) is a concurrent dataflow
engine: nodes are joined by bounded edges, packets carry timestamps, bounds and end-of-stream,
drains run on executor threads, and nodes may ask for their inputs to be joined by timestamp.
This project models that core in Dafny and proves what it promises over whole runs and every
interleaving of its atomic steps.

Each component has two layers. Where the program updates an object in place, a class (or a
method with loops) does the same and is proved to make exactly the transition of a specification
function. Runs are then sequences of such transitions, or step systems with one step per atomic
action, and the theorems are about all of them.

| file | component |
|---|---|
| `Basics.dfy`, `Packets.dfy`, `Sequences.dfy` | shared types, packets, timestamps, and facts about sequences |
| `SyncJoin.dfy`, `SyncNode.dfy`, `SyncJoinRuns.dfy` | the timestamp-synchronised join: specification, runtime record, runs |
| `BoundedQueue.dfy`, `EdgeStream.dfy` | bounded queues under three policies, and the checks every edge makes |
| `SyncColumns.dfy`, `RepeatedStamps.dfy`, `InputBound.dfy` | the join on arbitrary histories, one timestamp at a time; repeated timestamps; a bound that arrives ahead of its queue |
| `JoinPipeline.dfy`, `ProcessOrder.dfy` | edges feeding a join; from emissions through drains to the calls a node sees |
| `DrainProtocol.dfy`, `SchedulerPool.dfy` | drain tokens and scheduled flags; the executor's worker pool |
| `SourceBarrier.dfy`, `OperationGate.dfy`, `Lifecycle.dfy` | source removal, admission of operations, start and rollback |
| `FlowLimiter.dfy`, `RoundRobin.dfy`, `AdaptiveBatch.dfy`, `ClipRecorder.dfy` | stateful built-in nodes |
| `RtpMapper.dfy`, `RtcpClock.dfy`, `JitterBuffer.dfy` | RTP unwrapping, sender-report clock, reordering |
| `CycleCheck.dfy`, `SubgraphMerge.dfy` | cycle check and subgraph expansion |

`dafny verify dfyconfig.toml` checks the whole project.

## What the theorems rest on

- One thread at a time emits on an edge: the check and the push are two critical sections
  (src/core/graph_runner.cpp:535-555). A sync port is fed by one stream; that a stream has one drain at a
  time is proved in `DrainProtocol`, and `ProcessOrder` builds on it.
- A packet a node emits is its own or one it holds, and inherits the tokens of the current inputs only
  (src/core/node.cpp:50-54). Data a node has copied into its own state is known to the model but not to the
  runtime: `DerivedDataIsCoveredIff` says what that means for the source barrier.
- Node hooks return a status and do not throw; a throw would leave the scheduled flag set
  (src/core/graph_runner.cpp:594).
- The refinement theorems of the join ask for strictly ascending data timestamps on required ports. The rest of
  a stream's discipline is what its edge checks. Edges accept repeats; `InterleavingsAgreeIff` says exactly
  which repeats the interleaving makes visible.
- Shutdown results are safety results: nothing is claimed about a thread eventually being scheduled.
- Timers, clocks and failing hooks are nondeterministic steps or inputs.
- The per-port nested buffers of the join are one map keyed by port and timestamp. A node's own
  order in an unordered container is modelled as creation order when stops are requested.

## Where the code falls short of a natural property

Each of these keeps the code as it is, shows a run or input where the property fails, and states
exactly when it holds. The lemma in brackets shows the failure.

- A repeated data timestamp overwrites the buffered packet or starts a second match
  (`RepeatedStampsAreOrderSensitive`). Every interleaving hands out the same data exactly when one port is
  required, or at every common timestamp some required port delivers once and none delivers different packets.
- A buffered timestamp that another required port has skipped with later data stays buffered until a bound or
  end-of-stream comes: the join prunes on bounds and closes only (`SkippedStaysBuffered`). A buffered timestamp
  is past matching exactly when that has happened.
- A bound set on a graph input is applied ahead of the packets queued for it (`BoundAheadLosesAMatch`). The same
  data is handed out exactly when no common timestamp below the bound reaches that port after another required
  port.
- Bounds emitted after an end-of-stream can push it out of the queue (`BoundAfterEosDisplacesIt`): over every
  run, exactly when at some point as many control packets have been accepted after it as the queue has places
  and it is not yet popped.
- Data a node copies out of a packet and emits later can pass a source's removal (`KeptDataPassesTheBarrier`).
  Everything derived is covered exactly when nodes emit such data together with its token.
- An RTP packet that arrives late across a 32-bit wrap shifts every later timestamp by 2^32 ticks
  (`OneLatePacketAtTheWrap`). The mapped time is exact exactly when it fits and this has happened a multiple of
  2^26 times, which short of 2^26 is never.
- An RTP packet older than the last sender report maps to a time at or after that report, at every clock rate
  above one hertz (`ExactIffNotBeforeReport`).
- The flow limiter lets events overtake parked data, which then follows them on the output: an end-of-stream,
  or an event with a later time (`LaterEventOvertakes`). The output stays disciplined at every point of a run,
  whatever reports come, exactly when every event that arrives may be followed by the data parked at that moment.
- The batcher's timer emits outside its lock, so the worker can overtake it (`OvertakingBreaksOrder`) and an
  end-of-stream can leave first (`EosOvertakesTimer`): both are excluded in every run exactly when the timer
  does not run, that is without a timeout or without partial batches.
- A new trigger during a recording gives up the clip that was being recorded (`SecondTriggerGivesUpClip`). Every
  trigger gives its clip exactly when enough packets follow each before the next one.
- Subgraph ids that contain dots can give two public ports one name; the first one registered wins
  (`DottedIdsMisroute`). A port resolves to its own target exactly when the first one under its name has the same.

## Model

| member | source | states |
|---|---|---|
| SyncJoinRuns.JoinRefinesSortedIntersection | src/core/graph_runner.cpp:720-828 | For every disciplined history, in any interleaving, the data sets handed out are the ascending intersection of the required ports' timestamps, each with exactly those ports' packets |
| SyncJoinRuns.InterleavingDoesNotMatter | src/core/graph_runner.cpp:739-803 | Two histories that agree port by port hand out the same data |
| SyncJoinRuns.EosExactlyOnce | src/core/graph_runner.cpp:790-801 | End-of-stream is handed out once, on the delivery that closes the last required port; nothing is buffered then and no data follows |
| SyncJoinRuns.StepKeeps | src/core/graph_runner.cpp:720-803 | One delivery keeps the buffer, bound and closed-port invariant, and its outcome is fixed by the history alone |
| SyncJoinRuns.CompletedIsReady | src/core/graph_runner.cpp:805-828 | Pruning never removes a timestamp that can still match: a completed timestamp is buffered on every required port |
| SyncJoinRuns.BufferIsExact | src/core/graph_runner.cpp:805-828 | A required port buffers exactly its unmatched timestamps that no required port has ruled out by close or bound |
| SyncJoinRuns.MatchableExactlyWhen | src/core/graph_runner.cpp:805-828 | A delivered timestamp can be completed by some continuation if and only if no required port that lacks it is closed, bounded past it, or already past it with data |
| SyncJoinRuns.StaleExactlyWhen | src/core/graph_runner.cpp:805-828 | A buffered timestamp can no longer match if and only if another required port has skipped it with later data |
| SyncJoinRuns.SkippedStaysBuffered | src/core/graph_runner.cpp:805-828 | Two deliveries after which a packet that can no longer match is still buffered |
| SyncJoinRuns.ClosedPrunesAll | src/core/graph_runner.cpp:805-828 | With every required port closed, pruning empties the whole buffer |
| SyncJoinRuns.BoundsAreHighest | src/core/graph_runner.cpp:723-731 | Over every history the bound held for a port is one it was given and the highest of them |
| SyncJoinRuns.BoundRefusedExactlyWhen | src/core/graph_runner.cpp:725-728 | A bound is refused if and only if a higher one came before on its port, and then it changes nothing |
| SyncJoinRuns.RepeatedStampsAreOrderSensitive | src/core/graph_runner.cpp:768-770 | The same port streams with a repeated timestamp hand out different packets under two interleavings |
| RepeatedStamps.InterleavingsAgreeIff | src/core/graph_runner.cpp:739-803 | For arbitrary admissible streams all interleavings hand out the same data if and only if there is one required port, or at every common timestamp some required port delivers once and none delivers different packets |
| RepeatedStamps.CalmRefines | src/core/graph_runner.cpp:739-803 | On such streams, repeats included, what is handed out is the sorted intersection |
| RepeatedStamps.StormShows | src/core/graph_runner.cpp:768-789 | On any other streams two interleavings hand out different data |
| SyncColumns.JoinMirrorsColumns | src/core/graph_runner.cpp:720-828 | For every history, disciplined or not, what is buffered of a timestamp on the required ports depends on its own deliveries, the bounds and the closed ports alone |
| SyncColumns.HandsOutColumns | src/core/graph_runner.cpp:768-789 | For every history the data sets handed out are the completed timestamps, in order of completion, with the packets recorded last |
| SyncNodeRuntime.SyncNode.PruneImpossible | src/core/graph_runner.cpp:805-828 | The in-place pruning loops leave exactly the specified buffer |
| SyncNodeRuntime.SyncNode.CheckImpossible | src/core/graph_runner.cpp:812-823 | The loop over required ports finds one that lacks the timestamp for good exactly when there is one |
| SyncNodeRuntime.SyncNode.FirstReady | src/core/graph_runner.cpp:771-780 | Walking a port's buffer in ascending order finds the least timestamp every required port has, or none exactly when there is none |
| SyncNodeRuntime.SyncNode.TakeAt | src/core/graph_runner.cpp:781-787 | Removes the timestamp from every declared port and hands over exactly what was there |
| SyncNodeRuntime.SyncNode.PrepareInvocation | src/core/graph_runner.cpp:739-803 | Record, prune and dispatch make the specified transition on the node's fields |
| SyncNodeRuntime.SyncNode.DeliverPacket | src/core/graph_runner.cpp:720-737 | A delivery, including bounds and refused bounds, makes the specified transition |
| BoundedQueues.BoundedQueue.Push | include/rkavp/bounded_queue.hpp:18-46 | Under each policy: what is queued, whether the push is accepted, refused or waits, and whether something was dropped; never above capacity |
| BoundedQueues.BoundedQueue.PushControlPacket | include/rkavp/bounded_queue.hpp:48-59 | Control never waits and displaces the front of a full queue |
| BoundedQueues.BoundedQueue.TryPop | include/rkavp/bounded_queue.hpp:73-80 | Takes the front, if any, and leaves the rest in order |
| EdgeStreams.EdgeKeepsDiscipline | src/core/graph_runner.cpp:532-570 | For any policy, capacity and order of emissions, pops and closes: what is popped is a subsequence of what was accepted, timestamps and bounds are monotone, data is at or above earlier bounds, no data follows end-of-stream, the queue is within capacity, and every accepted packet is out, queued or displaced |
| EdgeStreams.StepKeeps | src/core/graph_runner.cpp:624-639 | Every step of an edge keeps its discipline, order and conservation invariant |
| EdgeStreams.LastAcceptedSurvives | include/rkavp/bounded_queue.hpp:18-80 | The newest accepted packet is never displaced |
| EdgeStreams.BoundAfterEosDisplacesIt | include/rkavp/bounded_queue.hpp:48-59 | A run in which a bound emitted after end-of-stream pushes it out of a full queue |
| EdgeStreams.DisplacedExactlyWhen | include/rkavp/bounded_queue.hpp:18-80 | Over every run an accepted packet is displaced if and only if at some point capacity many packets have been accepted after it and it has not been popped |
| EdgeStreams.EosIsLostExactlyWhen | include/rkavp/bounded_queue.hpp:48-59 | The same for an end-of-stream, after which only control is accepted |
| EdgeStreams.EdgeRuntime.ValidateEmission | src/core/graph_runner.cpp:535-551 | The first critical section of an emission makes the specified checks and updates on the edge's fields |
| EdgeStreams.EdgeRuntime.PushEmission | src/core/graph_runner.cpp:552-569 | Control and data go through their own queue operation |
| JoinPipeline.PipelineJoins | src/core/graph_runner.cpp:532-828 | Edges of any capacity and policy, popped and handed over in order in any interleaving: the node is handed exactly the sorted intersection of what its ports were given, and end-of-stream once; the order of hand-over is a rule of these steps |
| ProcessOrder.NodeIsCalledInOrder | src/core/graph_runner.cpp:532-855 | Over every interleaving of edge checks, pushes, drain steps, deliveries, tests for cancellation and calls outside the input lock, cancelled or not: the data sets the node was called with are the first ones of the sorted intersection of what its ports delivered, and end-of-stream is the last call; while not cancelled at most one is missing, in a thread's hand, and with none in hand end-of-stream was called exactly when every required port is closed |
| ProcessOrder.StreamReachesNode | src/core/graph_runner.cpp:532-596 | In the same runs what a port was given is what its edge let out, in order and but for at most one packet in a drain's hand; what the edge let out is a subsequence of what it accepted, and its queue is within capacity |
| ProcessOrder.StepKeepsInv | src/core/graph_runner.cpp:585-596 | Every step keeps: the protocol's queue is the edge's, each stream reaches the node in pop order, at most one call is in hand, calls made are the first there were to make and, until cancelled, with the one in hand all of them |
| ProcessOrder.NoSecondCall | src/core/graph_runner.cpp:848-853 | While a call is in hand for one port no delivery on another port leads to a call |
| JoinPipeline.NextIsInDiscipline | src/core/graph_runner.cpp:585-596 | The next packet a drain hands over always meets the join's precondition |
| InputBounds.BoundAheadIsHarmlessIff | src/core/graph_runner.cpp:323-346 | With a bound applied ahead of the queue, what is handed out is the sorted intersection of the undisturbed streams if and only if no common timestamp below the bound reaches its port after another required port |
| InputBounds.BoundAheadLosesAMatch | src/core/graph_runner.cpp:339-344 | A run in which both required ports deliver a timestamp that is never handed out |
| DrainProtocol.FlagHasOneHolder | src/core/graph_runner.cpp:572-622 | In every reachable state a set flag has exactly one holder (poster, queued token or running drain) and a clear one none |
| DrainProtocol.TokensAreBounded | include/rkavp/scheduler.hpp:28-30 | Queued drain tokens never outnumber the streams |
| DrainProtocol.DeliveredInPopOrder | src/core/graph_runner.cpp:585-596 | Packets of a stream are delivered in the order they were popped, at most one at a time |
| DrainProtocol.NoWakeupIsLost | src/core/graph_runner.cpp:572-596 | A non-empty stream of a graph that is not cancelled is flagged, or some thread is between its push or clear and its exchange, or is about to cancel the graph |
| DrainProtocol.QuiescentMeansDrained | src/core/graph_runner.cpp:572-622 | With all threads idle and no token queued in a graph that is not cancelled, every packet has been delivered |
| DrainProtocol.StepKeepsInv | src/core/graph_runner.cpp:572-622 | Every atomic step keeps ownership, order, wake-up and error invariants |
| SchedulerPool.DrainingStopStartsEverything | src/core/scheduler.cpp:74-86 | When all workers have exited after a draining stop, the queue is empty and every accepted task was started exactly once in queue order |
| SchedulerPool.DiscardingStopLosesOnlyTheTail | src/core/scheduler.cpp:77-81 | A discarding stop loses exactly the accepted tasks that were not started, a tail of the queue order |
| SchedulerPool.StartedInQueueOrder | src/core/scheduler.cpp:100-137 | At every moment the started tasks are a prefix of the accepted ones |
| SchedulerPool.NothingAcceptedAfterExit | src/core/scheduler.cpp:49-61 | No post is accepted after any worker has exited |
| SchedulerPool.AcceptedAfterFlagDown | src/core/scheduler.cpp:49-61 | A run that accepts a task after the running flag has gone down, in the window between the second check and the push |
| SchedulerPool.LateTaskIsStarted | src/core/scheduler.cpp:108-117 | From the state that run ends in, the worker takes the late task |
| SourceBarrier.RemovalIsABarrier | src/core/graph_runner.cpp:1048-1097 | Once removal is reported, for the rest of the run no packet anywhere carries one of the source's tokens, no admission is in progress and none can begin; nor does any packet derive from one, if nodes emit what they kept together with its token |
| SourceBarrier.InFlightIsExact | src/core/graph_runner.cpp:1004-1040 | The in-flight count is at every moment the admissions in progress plus the outstanding tokens |
| SourceBarrier.DerivedDataIsCoveredIff | src/core/node.cpp:50-54 | In every state of a run whatever was emitted, batched or split from an admitted packet carries its token, if and only if every emission of data a node kept carries it |
| SourceBarrier.KeptDataPassesTheBarrier | src/core/node.cpp:50-54 | A run in which a node emits data of a source after the removal of the source was reported |
| SourceBarrier.ReleaseIsAlwaysCounted | src/core/graph_runner.cpp:1004-1040 | The guard in the token's deleter never matters: the count is positive when a token is released |
| SourceBarrier.MakePacketBatch | include/rkavp/packet_batch.hpp:34-41 | A batch carries the union of its items' tokens, so batching covered packets gives a covered packet |
| OperationGate.TablesChangeOnlyAlone | src/core/graph_runner.cpp:437-489 | The runtime tables change only while no admitted operation is active |
| OperationGate.OperationSeesBuiltTables | src/core/graph_runner.cpp:895-906 | From admission to end an operation sees fully built tables |
| OperationGate.NoAdmissionWhileStopping | src/core/graph_runner.cpp:437-489 | No operation is admitted between the decision to stop and the end of clearing |
| OperationGate.EndIsAlwaysCounted | src/core/graph_runner.cpp:902-906 | The counter is positive whenever an operation ends |
| Lifecycle.ClosedExactlyOnce | src/core/graph_runner.cpp:214-235 | Whatever fails in configure, open, side packets or start, and for a normal start and stop, every node on which configure was called is closed exactly once and no other node is |
| Lifecycle.StoppedExactlyOnce | src/core/graph_runner.cpp:464-467 | Every node that was opened is stopped exactly once and no other node is |
| Lifecycle.TeardownGoesBackwards | src/core/graph_runner.cpp:464-471 | Stops and closes go in reverse creation order and a node's stop precedes its close |
| Lifecycle.Runner.Start | src/core/graph_runner.cpp:196-283 | A start that fails in executors, nodes or side packets tears everything down; either way the calls made are those of the reference trace |
| Lifecycle.Runner.Build | src/core/graph_runner.cpp:214-235 | Builds nodes up to the first failure, which is closed on the spot |
| Lifecycle.Runner.Stop | src/core/graph_runner.cpp:454-471 | Requests, then stops, then closes, the last two in reverse order |
| Lifecycle.Runner.CloseNode | src/core/node.cpp:106-113 | Which hooks a close calls from each state, including a running node whose stop fails |
| Lifecycle.Runner.StopNode | src/core/node.cpp:97-104 | Which hooks a stop calls from each state, and the state after |
| FlowLimiters.LimitIsKept | src/core/builtin_nodes.cpp:82-112 | Over every run: slots and parking places are never exceeded, packets are parked only while every slot is taken, data emitted is the slots in use plus those given back, and at most the limit plus the reports |
| FlowLimiters.DataLeavesInOrder | src/core/builtin_nodes.cpp:82-112 | Data out and parked is a subsequence of data in, and every data packet is out, parked or dropped |
| FlowLimiters.SlotsAreExactIff | src/core/builtin_nodes.cpp:83-84 | Slots in use are data emitted less reports if and only if no report came with no slot in use |
| FlowLimiters.AlwaysDisciplinedIff | src/core/builtin_nodes.cpp:82-112 | A disciplined input keeps the output disciplined at every point of the run, whatever reports come next, if and only if every event that arrives may be followed by the data parked then |
| FlowLimiters.DisciplineIsKept | src/core/builtin_nodes.cpp:94-97 | Under that condition a disciplined input stream gives a disciplined output stream |
| FlowLimiters.OvertakenExactlyWhen | src/core/builtin_nodes.cpp:85-96 | What follows an event on the output is the parked data that later reports release; the output stays disciplined if and only if each of those may follow the event |
| FlowLimiters.LaterEventOvertakes | src/core/builtin_nodes.cpp:85-96 | A run in which an event with a later time leaves before older parked data |
| FlowLimiters.EosOvertakesExactlyWhen | src/core/builtin_nodes.cpp:85-96 | What follows an end-of-stream on the output is the parked data that later reports release; the output stays disciplined if and only if nothing was parked |
| FlowLimiters.FlowLimiter.Finished | src/core/builtin_nodes.cpp:83-92 | A report makes the specified transition, including reports that are not owed |
| FlowLimiters.FlowLimiter.Process | src/core/builtin_nodes.cpp:94-111 | An input makes the specified transition under each policy, including capacity zero |
| RoundRobin.BatchTakesTurns | src/core/builtin_nodes.cpp:227-248 | A batch is a permutation of the pending items that keeps each source's order and puts every source's k-th item before any source's next, sources in order of first appearance |
| RoundRobin.BatchStartsWithFirstArrival | src/core/builtin_nodes.cpp:230-249 | The batch starts with the item that waited longest, whose timestamp it carries |
| RoundRobin.FlushPending | src/core/builtin_nodes.cpp:227-247 | The nested loops terminate and compute the specified interleaving |
| AdaptiveBatches.BatchesRespectLimits | src/core/builtin_nodes.cpp:205-221 | Whatever the timer does, no batch is empty, larger than the maximum, or over the limit of a source, and its sources take turns |
| AdaptiveBatches.BatchesKeepSourceOrder | src/core/builtin_nodes.cpp:199-253 | Batches in the order taken, then what is pending, reproduce each source's accepted sequence |
| AdaptiveBatches.AcceptedIsAccountedFor | src/core/builtin_nodes.cpp:199-253 | Every accepted packet is pending, held by a thread, or emitted in exactly one batch |
| AdaptiveBatches.EosCoversExactlyWhen | src/core/builtin_nodes.cpp:182-185 | When the worker passes on end-of-stream, everything accepted has been emitted if and only if the timer holds no batch |
| AdaptiveBatches.EosIsLastExactlyWithoutTimer | src/core/builtin_nodes.cpp:174-185 | In every run everything accepted is out when end-of-stream is passed on, if and only if there is no timeout or partial batches are not allowed |
| AdaptiveBatches.EosOvertakesTimer | src/core/builtin_nodes.cpp:182-185 | With a timer, a run in which end-of-stream leaves before a batch accepted ahead of it |
| AdaptiveBatches.OrderSurvivesExactlyWithoutTimer | src/core/builtin_nodes.cpp:174-269 | After demultiplexing, every run keeps every source's order if and only if the timer thread does not run: there is no timeout or partial batches are not allowed |
| AdaptiveBatches.OvertakingBreaksOrder | src/core/builtin_nodes.cpp:255-269 | A run in which the worker overtakes the timer and a source's two packets leave in the wrong order |
| AdaptiveBatches.AdaptiveBatch.Accept | src/core/builtin_nodes.cpp:199-221 | Counting, refusing or appending, and the decision to flush, as specified |
| AdaptiveBatches.AdaptiveBatch.TakePending | src/core/builtin_nodes.cpp:227-250 | Empties the pending items into a batch whose indices are the positions |
| ClipRecorders.ClipsAreTheTriggerWindows | src/core/builtin_nodes.cpp:344-381 | Over every run the emitted clips are exactly the complete, non-empty windows around the triggers, in trigger order: up to capacity packets before and exactly the configured number after |
| ClipRecorders.NoClipIsGivenUpIff | src/core/builtin_nodes.cpp:344-381 | Every trigger of a run gives its clip if and only if each is followed by the configured number of packets before the next one and its window is not empty |
| ClipRecorders.SecondTriggerGivesUpClip | src/core/builtin_nodes.cpp:344-353 | Two triggers and one clip: the second comes while the first one's packets are still to come |
| ClipRecorders.StepKeeps | src/core/builtin_nodes.cpp:344-367 | Every input keeps the ring equal to the last packets of the history, the open clip equal to the open window, and the clips cut so far equal to the reference |
| ClipRecorders.ClipRecorder.Process | src/core/builtin_nodes.cpp:344-367 | An input makes the specified transition, including refused and ignored ones |
| ClipRecorders.ClipRecorder.EmitClip | src/core/builtin_nodes.cpp:370-381 | Hands over the whole clip in order unless it is empty, and clears it |
| RtpMapper.MapIsExactIff | src/core/streaming_primitives.cpp:10-29 | For every clock rate and every reordering within half the range, the mapped time is the true floor of the elapsed microseconds if and only if it fits and packets have stepped back over a multiple of 2^32 a multiple of 2^26 times, none included |
| RtpMapper.TicksAreOffByBackCrossings | src/core/streaming_primitives.cpp:18-25 | The unwrapped tick count is the true one plus 2^32 per backward crossing, modulo 2^64 |
| RtpMapper.CyclesCountBackCrossings | src/core/streaming_primitives.cpp:18-22 | The cycle counter runs ahead of the true clock by one per backward crossing |
| RtpMapper.BeforeOriginIsNeverExact | src/core/streaming_primitives.cpp:24-27 | At a clock rate above one hertz a tick before the first one never maps to its true negative time |
| RtpMapper.BeforeOriginIsExactAtOneHertz | src/core/streaming_primitives.cpp:24-27 | At one hertz it does, while the time fits |
| RtpMapper.OneLatePacketAtTheWrap | src/core/streaming_primitives.cpp:18-25 | Four timestamps after which the count is ahead by 2^32 for good |
| RtpMapper.RtpTimestampMapper.Map | src/core/streaming_primitives.cpp:10-29 | The in-place update and the result in wrapping 64-bit arithmetic, and the refusal of a zero rate |
| RtcpClock.ReanchoringLosesAtMostOnePerReport | src/core/streaming_primitives.cpp:38-62 | After any reports that agree with the prediction drift is zero and a later tick maps no later than without re-anchoring and at most one microsecond earlier per report |
| RtcpClock.RelativeIsExactIff | src/core/streaming_primitives.cpp:54-62 | At every clock rate the time relative to the last report is exact if and only if it fits, where a time before the report fits at one hertz only |
| RtcpClock.ExactIffNotBeforeReport | src/core/streaming_primitives.cpp:54-62 | Above one hertz, while later times fit, the time is exact if and only if the packet is not older than the report; an older one lands at or after the report |
| RtcpClock.RtcpClockMapper.Update | src/core/streaming_primitives.cpp:38-52 | A report computes drift, resets and re-anchors as specified, or is refused |
| RtcpClock.RtcpClockMapper.Map | src/core/streaming_primitives.cpp:54-62 | Mapping succeeds exactly when anchored with a positive rate, and then gives the specified time |
| JitterBuffers.OutputIsInPresentationOrder | src/core/streaming_primitives.cpp:88-118 | Over every run what was handed out followed by what is held is strictly ordered by time and arrival, contents stay within capacity, and accepted equals handed out plus held plus lost |
| JitterBuffers.LosslessRunIsStableSort | src/core/streaming_primitives.cpp:95-98 | While nothing is lost, output and contents together are the one stable sort of what was accepted |
| JitterBuffers.ArrivalLosesExactlyWhen | src/core/streaming_primitives.cpp:88-106 | An accepted arrival costs a packet exactly when it is late, then itself, or when the buffer is full, then the earliest at hand |
| JitterBuffers.AskYieldsExactlyWhen | src/core/streaming_primitives.cpp:108-118 | A pop yields nothing if and only if no held packet is due, and otherwise the earliest of all |
| JitterBuffers.WithinLatencyIsNeverLate | src/core/streaming_primitives.cpp:88-118 | A packet newer than every watermark so far less the latency is never dropped as late |
| JitterBuffers.JitterBuffer.PushPacket | src/core/streaming_primitives.cpp:88-106 | A push makes the specified transition and reports status and drop |
| JitterBuffers.JitterBuffer.PopReady | src/core/streaming_primitives.cpp:108-118 | A pop makes the specified transition |
| CycleCheck.CycleChecker.ValidateAcyclic | src/core/graph.cpp:128-149 | The search terminates and succeeds if and only if the ordinary edges have no directed cycle, equivalently have a topological order |
| CycleCheck.CycleChecker.Visit | src/core/graph.cpp:135-144 | A visit either finishes a node after all its successors or has found a cycle |
| CycleCheck.CycleOnTrail | src/core/graph.cpp:136-136 | Reaching a node that is still being visited closes a cycle |
| CycleCheck.OrderExcludesCycle | src/core/graph.cpp:128-149 | A graph with a topological order has no cycle |
| CycleCheck.Validate | src/core/graph.cpp:56-63 | Succeeds if and only if every endpoint exists and there is no undeclared cycle; otherwise names the first dangling edge, source first |
| SubgraphMerge.SplitExactly | src/core/graph_config.cpp:46-54 | An endpoint splits into node and port if and only if it is `node.port`, both non-empty and the port without a dot |
| SubgraphMerge.MergeSubgraph | src/core/graph_config.cpp:338-360 | Refuses an empty prefix; otherwise appends every node renamed and overridden and every edge renamed with ports, queue, back flag and initial packet unchanged, and leaves the parent's own alone |
| SubgraphMerge.MergeOptions | src/core/graph_config.cpp:345-350 | An option ends as the override whose key is the node id, a dot and its name, else as it was, whatever order the overrides are visited in |
| SubgraphMerge.RenameBijective | src/core/graph_config.cpp:344-356 | Renaming is a bijection onto the ids under the prefix |
| SubgraphMerge.IdsStayDistinctExactlyWhen | src/core/graph_config.cpp:342-352 | Merged ids are distinct if and only if each side's are and no parent id is already a renamed one |
| SubgraphMerge.MergeKeepsAcyclicity | src/core/graph_config.cpp:353-358 | Merging hides no cycle, and creates none when no node is wired by ordinary edges of both sides |
| SubgraphMerge.DisjointMergeIsAcyclicIff | src/core/graph_config.cpp:338-360 | Merging graphs whose ids stay distinct gives a graph with a topological order if and only if both sides have one |
| SubgraphMerge.TouchingCanCloseACycle | src/core/graph_config.cpp:353-358 | Two acyclic sides that merge into a cycle when the parent wires the subgraph's renamed nodes |
| SubgraphMerge.AddAliases | src/core/graph_config.cpp:148-149 | Registers a subgraph's ports one by one; a key already present keeps its target |
| SubgraphMerge.CollectAliases | src/core/graph_config.cpp:114-153 | The loop over the subgraphs registers all their ports in order |
| SubgraphMerge.FirstRegisteredWins | src/core/graph_config.cpp:148-152 | A key leads to the target of the first port registered under it |
| SubgraphMerge.PublicPortResolvesIff | src/core/graph_config.cpp:269-282 | An edge to a registered public port ends at its renamed inner node and that node's own port if and only if the first port registered under the same name has the same target |
| SubgraphMerge.CollidesExactlyWhen | src/core/graph_config.cpp:149-152 | Two qualified names are one string if and only if they are one pair or one id continues the other after a dot |
| SubgraphMerge.DotFreeIsUnambiguous | src/core/graph_config.cpp:149-152 | With dot-free ids a qualified name is read in one way |
| SubgraphMerge.DottedIdsMisroute | src/core/graph_config.cpp:114-153 | After two subgraphs are registered, the second one's id continuing the first one's after a dot, an edge to the second one's port ends inside the first |

## Left out

- Hardware, network and plugin backends and their nodes: foreign calls whose behaviour is not visible here.
- YAML parsing, environment expansion and recursive file loading: the model starts from parsed values.
- The `any` and `latest` input policies, media caps, option getters and service registries: one-branch facts.
- Wall-clock time: waiting with timeouts, `WaitUntilIdle` polling, thread priorities and the batcher's deadline are nondeterministic steps or absent.
- Logging, metrics, traces and runtime snapshots.
- Observer queues and their detached workers; a packet an observer holds is one more place in `SourceBarrier`.
- Several threads emitting on one edge at once, and `Cancel` racing with `Stop`: no clean guarantee is given there.
- Accounting of active sources, `CloseInputStream`, and the reconnect back-off.
- A blocked producer is modelled as an attempt that leaves the queue alone and may be made again; that it is eventually woken is not claimed.
- Overflow of 64-bit microsecond sums outside the RTP mapper: jitter deadlines and sender-report times are unbounded integers.
- Lifecycle.Runner.Stop: asks nodes to stop in creation order where the program walks an unordered map, because no result depends on that order.
- Lifecycle.Runner.Start: does not model the second start of a runner that is already up, which is refused before anything is touched.
- ProcessOrder.NodeIsCalledInOrder: asks that data timestamps on required ports ascend strictly, which edges do not check; after a cancellation it says which calls were made and not how many.
- JoinPipeline.PipelineJoins: takes hand-over in pop order as a rule of its steps; `ProcessOrder.StreamReachesNode` derives it from the drain protocol.
- Lifecycle.Runner.Process: states only that the node list stays live, because what a node computes is outside the model.
- RtpMapper.MapIsExactIff: asks that consecutive packets lie within half the 32-bit range, beyond which 32 bits do not tell forward from backward.
