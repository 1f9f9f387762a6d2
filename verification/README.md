# A Dafny model of MGPUSim and Akita

MGPUSim simulates GPUs; Akita is the discrete-event framework below it. This project models the parts of both in which
correctness depends on whole runs, unbounded grids, memories or pipelines, and proves that they do what they are for.
`dafny verify dfyconfig.toml` checks everything.

## What is modelled

**Event kernel and message transport.** `Freq`, `Kernel`, `EventQueue` and `SerialEngine` hold clock arithmetic, the
event queues, the tick schedulers and the serial engine. `Ports`, `DirectLink`, `ChannelLink` and `Pipeline` describe
ports, the two kinds of connection and the delay pipeline as functions on values; `Connection` and `PipelineUnit` are
the same things as objects whose loops update them in place. `Simulation` is a whole run: an engine, ticking
components that send, retrieve and ask during primary ticks, their ports, and one connection that ticks in secondary
events. `NoLostWakeup` proves over every run that sleeping is always safe: a connection without a pending tick has
nothing to deliver until a full port is read, and reading that port wakes it. `EngineFifo` adds, on the lists of
`EngineQueues`, that equal times run in scheduling order, `OwnersWoken` that refused senders and receivers of messages
are woken, and `TickTimes` when exactly an action asks for a tick. `PipelineTiming` and `ChannelTiming` give the exact
latency of the pipeline and of a channel. `ParallelEngine` is the parallel engine as a state machine over the steps of
its main loop and its workers, with the queue-token channels; `ParallelEngineRuns` proves what every interleaving
keeps, `ParallelEngineUnit` has its loops, and `ParallelEngineStall` is a run that does not end.

**Page migration.** `Migration` is the driver's drain, shootdown, copy and restart protocol with its acknowledgement
counters, `MigrationUnit` the handlers as methods of one object, `MigrationRuns` the invariant, `MigrationResults` the
main results and `MigrationOverwrite` a run in which a reply is lost. `MigrationProgress` counts the work of a
migration and says what empty lists do to it. `MigrationWake` adds the driver's tick events: it ticks in a cycle only
if it was asked to. `MigrationTicks` counts what one tick sends and takes. `MigrationHangs` says over every such run
when the driver sleeps, when a migration ends and when it hangs, and `MigrationAsleep` is a run in which it hangs.

**Kernel dispatch.** `Dispatch` cuts a grid over GPUs, `GridBuilder` into work-groups, items and wavefronts, and
`Wavefronts` compares execution masks and register contents; `LaunchPoints` puts them together, down to the points of
the grid; `Grid` and `MixedRadix` hold the arithmetic.

**Memory.** `Storage` and `FlatMemory` show that sparse storage is one flat byte memory, `PageTable` and `Copy` that
copies through the page table come back unchanged, `Directory` that the LRU queues work through aliased slices,
`Interleaving` that address conversion and routing agree.

**Two loops.** `SweepLine` is the average task count of Daisen, `Vop3b` and `Vop3bUnit` are the carry chains of the
VOP3b instructions.

`Wrappers`, `Arith` and `Bags` are helpers.

## Where the code and its promises differ

Each item names the exact condition and an input that shows the failure.

- The driver can sleep with a response in its port. `processShootdownCompleteRsp` reports no progress for a response
  that is not the last one. If two shootdown responses arrive in one cycle, they cause one tick, which takes the first
  and reports no progress; with nothing else on its way the migration hangs
  (`MigrationAsleep.TwoResponsesInOneCycleHang`). `MigrationHangs.WakeLostExactly` says exactly which ticks lose a
  wake-up, `MigrationHangs.HangsExactly` when a migration hangs. With one accessing GPU, or at most one response per
  cycle, it never does (`MigrationHangs.MigrationNeverHangs`).
- A migration with an empty list of accessing GPUs or pages never ends (`MigrationProgress.HangsIffEmpty`,
  `MigrationProgress.HungForever`, `MigrationProgress.NoAccessingGPUHangs`).
- The reply to the MMU is overwritten when the copies of a migration finish before the previous reply was sent
  (`MigrationResults.RepliesLostExactly`, `MigrationOverwrite.ImpatientMMULosesReply`). The repository's MMU waits for
  its reply, and then all replies arrive.
- A unified launch covers the grid only if the number of work-groups is below 2^32, because the driver multiplies the
  three counts as 32-bit numbers (`LaunchPoints.LaunchCoversGrid`, `Dispatch.LaunchPartitionsGrid`,
  `Dispatch.HugeLaunchLosesGroups`; the CU total is assumed to be below 2^32).
- `NumWG` without a filter is not the number of groups produced when a grid size is zero
  (`GridBuilders.GridBuilder.CountWG`, `GridBuilders.ZeroGridCounts`).
- In work-groups that are cut off in x or y a wavefront can be more than 64 identifiers wide; items then share a lane
  with registers of other items (`Wavefronts.FitIffBlocksStart`, `Wavefronts.LaneHoldsItemIffItFits`,
  `Wavefronts.RaggedGroupOverflows`).
- `storageAccessor.Write` translates every chunk with the first page (`Copies.AccessorWriteRightIff`,
  `Copies.ScatteredFramesMisplace`).
- The copies of the driver ignore errors of the storage, so bytes of frames beyond the capacity come back as zeros
  (`Copies.CopyRoundTrip`, `Copies.BeyondCapacityIsLost`).
- `Remove` of the page table is documented to remove the page that contains an address, but it does not align the
  address, so it panics on any address but the first of a page (`PageTables.RemovableIffAligned`,
  `PageTables.UnalignedRemovePanics`).
- Accesses that leave the capacity of a storage can succeed, depending on the unit size (`Storages.Storage.Read`,
  `FlatMemory.UnitSizeShowsBeyondCapacity`).
- The parallel engine looks for times below the largest floating-point number; a secondary event at that time or later
  is never run, and `Run` does not return (`ParallelEngineRuns.RoundHasWork`,
  `ParallelEngineStall.LargestTimeNeverRuns`).

## Model

| member | source | states |
|---|---|---|
| NoLostWakeup.NoMessageIsStranded | akita/sim/directconnection.go:61-149 | No lost wake-up: in every reachable state of a run, if the connection has no tick pending, each non-empty source buffer waits for a full port with portBusy set (for a Channel each direction is empty or stuck behind such a port), and busy implies a full source buffer |
| NoLostWakeup.ReadingABlockedPortWakes | akita/sim/port.go:116-141 | In every reachable state, retrieving from a full port with portBusy set leaves a tick of the connection pending |
| OwnersWoken.RefusedSenderIsWoken | akita/noc/messaging/channel.go:159-184 | In every reachable state, a step after which there is room again at a port where a message was refused leaves a future tick of the refused component pending |
| OwnersWoken.DeliveryWakesOwner | akita/sim/port.go:88-113 | In every reachable state, a step that delivers a message leaves a future tick of the receiving component pending |
| TickTimes.RefusedSenderIsNotForgotten | akita/sim/directconnection.go:45-147 | In any continuation of a run after a refusal, if there is room again at the end, there was a moment with room at which the refused component had a future tick pending |
| TickTimes.RefusalIsRemembered | akita/sim/directconnection.go:45-80 | A refused CanSend or Send marks the end of the port and changes nothing else |
| TickTimes.AcceptedSendTicksNow | akita/sim/directconnection.go:60-80 | In every reachable state an accepted message ticks the connection in the same cycle, unless a later tick was pending |
| TickTimes.ReadingTicksWhenBlocked | akita/sim/port.go:116-141 | Reading a blocked port ticks a direct connection in the same cycle and a channel at its next edge, reading any other port ticks nothing, and afterwards the port is not marked |
| TickTimes.ProgressTicksAgain | akita/sim/ticker.go:137-145 | A component whose tick made progress has a tick pending at its next clock edge; without progress nothing is scheduled |
| TickTimes.DeliveryTicksAgain | akita/sim/ticker.go:137-145 | A tick of the connection that delivered something is followed by another one |
| TickTimes.IdleTickSleeps | akita/sim/ticker.go:137-145 | A tick of the connection that moved nothing asks for no further one |
| TickTimes.ConnectionTicksLast | akita/sim/ticker.go:56-110 | Over every run, a tick of the connection comes after all component ticks and primary events of its time |
| NoLostWakeup.DeliveryIsExactlyOnce | akita/sim/directconnection.go:121-149 | At all times, per source, sent messages are those delivered followed by those in flight (as sequences for DirectConnection and a one-lane Channel, as bags otherwise), delivered ones are those retrieved followed by those buffered, and no port buffer overflows |
| NoLostWakeup.NothingIsLeftBehind | akita/sim/directconnection.go:101-149 | A run that ends with empty event queues and room in every port has delivered everything that was sent |
| NoLostWakeup.EngineRunsInOrder | akita/sim/serialengine.go:67-128 | Over every run handled times never decrease, no primary event follows a secondary one of its time, nothing pending is in the past, handled plus pending is what was scheduled, and the ticks of one component are handled at strictly increasing times |
| EngineFifo.EqualTimesRunInOrder | akita/sim/eventqueue.go:110-154 | Over every run of the simulation on insertion queues, events of equal time and kind are handled in the order in which they were scheduled |
| EngineFifo.ChosenCanPop | akita/sim/serialengine.go:109-128 | In every state of such a run with an event left, what nextEvent chooses from the lists is an earliest event, a primary one on a tie |
| EngineFifo.EveryStepIsTraced | akita/sim/serialengine.go:39-128 | Every step of the simulation that pops what nextEvent chooses is a step of such a run |
| NoLostWakeup.StepKeeps | akita/sim/ticker.go:122-145 | Every step (pop, send, refused send, retrieve, wake, tick now, schedule, finish) keeps the joint invariant of queues, schedulers, ports and connection |
| DirectLink.TickSettles | akita/sim/directconnection.go:101-149 | After a tick every source buffer is empty or its head waits for a blocked port; deliveries come from the fronts of the buffers; progress is reported exactly when something was delivered |
| DirectLink.TickFromSettles | akita/sim/directconnection.go:101-119 | The round-robin pass visits every end, and an end settled in an early round stays settled in the later ones |
| DirectLink.ForwardManyFacts | akita/sim/directconnection.go:121-149 | forwardMany delivers a prefix of one buffer, in order, and stops only at an empty buffer or a refusing port |
| DirectLink.RoundRobin | akita/sim/directconnection.go:107-119 | In consecutive ticks of a connection with n ends, the k-th one begins at the end k behind the first start, modulo n |
| DirectLink.EachIsFirstOnce | akita/sim/directconnection.go:107-119 | So in any n consecutive ticks each end is first exactly once |
| DirectLink.NobodyStarves | akita/sim/directconnection.go:107-147 | A message at the head of a source buffer whose destination has room before every tick is delivered within n ticks, whatever the other ends send |
| ChannelLink.SleepIsSafe | akita/noc/messaging/channel.go:129-248 | A Channel tick that reports no progress changed nothing but portBusy flags, and with room for a message in each buffer every direction is empty or stuck behind a blocked port |
| ChannelLink.TickDelivers | akita/noc/messaging/channel.go:129-248 | A Channel tick loses and duplicates nothing in either direction, keeps the order at one lane, and keeps the invariant of both ends |
| ChannelLink.MoveOneFacts | akita/noc/messaging/channel.go:159-184 | moveMsgOneEnd keeps the contents of a direction and leaves a message in the source buffer only when no lane takes one; without progress it changes nothing, and with room behind the pipeline the direction is then empty |
| ChannelTiming.ChannelLatency | akita/noc/messaging/channel.go:129-247 | In a channel whose destination always has room, a message that enters the pipeline in tick a is delivered in tick a + numStage * cycles + 1 and is inside in all ticks between |
| ChannelTiming.TickParts | akita/noc/messaging/channel.go:129-137 | A tick delivers what had left the pipeline before it, and only then moves |
| ChannelTiming.ProgressIsReal | akita/noc/messaging/channel.go:129-184 | A tick of a channel reports progress exactly when it delivers a message or there is less left to move after it |
| Ports.ReceiveDelivers | akita/sim/port.go:88-113 | Recv either delivers exactly its message and wakes the owner, or changes nothing but portBusy and leaves the port blocked |
| Connections.Port.Recv | akita/sim/port.go:88-113 | Refuses exactly when full, raising portBusy; otherwise appends the message and asks for a later tick of the owner |
| Connections.Port.Retrieve | akita/sim/port.go:116-141 | Takes the first message if there is one; clears a set portBusy and wakes the connection exactly then |
| Connections.Port.NotifyAvailable | akita/sim/port.go:159-164 | Asks the owner for a tick at its next tick time, if there is an owner |
| Connections.DirectConnection.PlugIn | akita/sim/directconnection.go:20-32 | Adds an empty end and keeps all others valid |
| Connections.DirectConnection.CanSend | akita/sim/directconnection.go:45-58 | Answers whether there is room and remembers a refusal in busy |
| Connections.DirectConnection.Send | akita/sim/directconnection.go:61-79 | Appends and ticks now when there is room; otherwise changes only busy |
| Connections.DirectConnection.ForwardMany | akita/sim/directconnection.go:121-149 | The loop computes the specification of forwardMany |
| Connections.DirectConnection.Tick | akita/sim/directconnection.go:101-119 | The loop computes one round-robin pass and advances nextPortID |
| Connections.Channel.CanSend | akita/noc/messaging/channel.go:90-101 | Answers whether there is room and remembers a refusal in busy |
| Connections.Channel.Send | akita/noc/messaging/channel.go:104-127 | Appends and ticks now when there is room; otherwise changes only busy |
| Connections.Channel.DeliverOneEnd | akita/noc/messaging/channel.go:222-248 | The loop delivers from the post-pipeline buffer until a refusal |
| Connections.Channel.MoveMsgOneEnd | akita/noc/messaging/channel.go:159-184 | Ticks the pipeline, then the loop feeds it while it accepts |
| Connections.Channel.Tick | akita/noc/messaging/channel.go:129-157 | Both deliveries, then both moves, and the invariant of the channel |
| Kernel.TickLaterExactlyOne | akita/sim/ticker.go:93-109 | TickLater at the current time always leaves exactly one tick pending at NextTick(now), which is an edge of the component's clock |
| Kernel.TickAtKeeps | akita/sim/ticker.go:74-109 | Asking for a tick keeps the invariant of queues and schedulers: every tick is asked for at most once, none later than nextTickTime |
| Kernel.TakeKeeps | akita/sim/serialengine.go:67-128 | Popping the next event keeps that invariant, and the event is never in the past |
| Freq.NextTickWindow | akita/sim/freq.go:55-61 | In exact arithmetic NextTick lies between 0.05 and 1.05 periods after its input |
| Freq.NextTickMonotone | akita/sim/freq.go:55-61 | NextTick is monotone |
| Freq.GridSteps | akita/sim/freq.go:40-86 | On the clock grid NextTick, ThisTick and NCyclesLater step by one, stay, and shift by n cycles |
| Freq.NextTickIsNextEdge | akita/sim/freq.go:48-61 | For a time from a twentieth of a period before edge k to a twentieth before edge k + 1, NextTick is edge k + 1 |
| Freq.ThisTickIsThisEdge | akita/sim/freq.go:32-46 | For a time more than a twentieth behind edge k - 1 and up to a twentieth behind edge k, ThisTick is edge k |
| Freq.NCyclesLaterIsEdge | akita/sim/freq.go:63-71 | NCyclesLater is the edge n cycles behind the one of ThisTick |
| Freq.AlwaysAnEdge | akita/sim/freq.go:32-61 | These cases cover all times, so the results always lie on the clock grid |
| SerialEngines.SerialEngine.Schedule | akita/sim/serialengine.go:39-51 | Inserts the event into the queue of its kind, behind those of its time |
| SerialEngines.SerialEngine.NoMoreEvent | akita/sim/serialengine.go:105-107 | True exactly when both queues are empty |
| SerialEngines.SerialEngine.NextEvent | akita/sim/serialengine.go:109-128 | Takes the earliest event from the front of its queue, a primary one on a tie |
| SerialEngines.SerialEngine.StartNext | akita/sim/serialengine.go:67-89 | Moves the time to the popped event; the panic about the past cannot happen when nothing pending is in the past |
| SerialEngines.TickScheduler.TickNow | akita/sim/ticker.go:74-90 | Schedules a tick at now unless one at now or later was asked for |
| SerialEngines.TickScheduler.TickLater | akita/sim/ticker.go:93-109 | Schedules a tick at NextTick(now) unless one then or later was asked for |
| EventQueue.InsertionQueue.Push | akita/sim/eventqueue.go:110-129 | The loop inserts in front of the first later event; the list stays sorted and gains exactly the event |
| EventQueue.InsertionQueue.Pop | akita/sim/eventqueue.go:132-137 | Removes an event of the smallest time from the front |
| EventQueue.InsertionQueue.Peek | akita/sim/eventqueue.go:149-154 | Returns an event of the smallest time |
| EventQueue.InsertedIsFifo | akita/sim/eventqueue.go:110-129 | Insertion puts an event behind all events of its own time |
| EventQueue.EqualTimesAreFifo | akita/sim/eventqueue.go:110-154 | Over any run of pushes and pops, events of one time leave in the order in which they were pushed |
| PipelineTiming.ExactLatency | akita/pipelining/pipeline.go:84-187 | An item whose post buffer never fills leaves at exactly the numStage * cyclePerStage-th tick after Accept, however many items share the pipeline |
| PipelineTiming.LanesLeaveInOrder | akita/pipelining/pipeline.go:84-187 | Whatever the room behind the pipeline, the items that are due leave in the order of their lanes as far as there is room |
| PipelineModel.TickIsFifo | akita/pipelining/pipeline.go:84-142 | With one lane, what has left followed by what is inside is unchanged by a tick |
| PipelineModel.TickConserves | akita/pipelining/pipeline.go:84-142 | At any width nothing is lost or duplicated by a tick |
| PipelineModel.AcceptAdds | akita/pipelining/pipeline.go:160-187 | Accept puts in exactly the new item |
| PipelineModel.AcceptIsFifo | akita/pipelining/pipeline.go:160-187 | With one lane the new item goes behind everything inside |
| PipelineModel.TickProgress | akita/pipelining/pipeline.go:84-109 | Tick returns true exactly when the total remaining work strictly drops; otherwise it changes nothing |
| PipelineModel.TickLanesNoOverflow | akita/pipelining/pipeline.go:111-125 | The post-pipeline buffer is only appended to and never overflows |
| PipelineModel.StuckLanesAreEmpty | akita/pipelining/pipeline.go:84-142 | A tick without progress while the post buffer has room finds all lanes empty |
| Pipelines.Pipeline.TryMoveToPostPipelineBuffer | akita/pipelining/pipeline.go:111-125 | Moves out of the last stage exactly when the buffer has room |
| Pipelines.Pipeline.TryMoveToNextStage | akita/pipelining/pipeline.go:127-142 | Moves to the next stage exactly when it is free |
| Pipelines.Pipeline.Tick | akita/pipelining/pipeline.go:84-109 | The nested loops compute the specification lane by lane, last stage first |
| Pipelines.Pipeline.CanAccept | akita/pipelining/pipeline.go:144-156 | The loop finds out whether some first stage is free |
| Pipelines.Pipeline.Accept | akita/pipelining/pipeline.go:160-187 | The loop puts the item into the first free lane |
| ParallelEngineRuns.QueuesChangeHands | akita/sim/parallelengine.go:90-192 | For every interleaving each queue is in exactly one place (channel, main loop or one worker), and between rounds all are in the channel |
| ParallelEngineRuns.NothingInThePast | akita/sim/parallelengine.go:220-278 | No pending event is earlier than now, handlers run at their event's own time, and neither panic about the past can happen |
| ParallelEngineRuns.EachEventRunsOnce | akita/sim/parallelengine.go:105-278 | Scheduled events are those queued, those being pushed and those run, as bags; events run in time order |
| ParallelEngineRuns.SecondaryRoundsWait | akita/sim/parallelengine.go:140-152 | A secondary round at t starts only when no primary event with time at or before t is pending, and the time never goes back |
| ParallelEngineRuns.RoundRunsAllDue | akita/sim/parallelengine.go:220-242 | A round runs every event that was due when it was chosen |
| ParallelEngineRuns.NoDeadlock | akita/sim/parallelengine.go:105-242 | Unless all events are done, some step of the main loop or of a worker is possible: nobody blocks for good on the queue channels |
| ParallelEngineRuns.RoundHasWork | akita/sim/parallelengine.go:140-169 | A round has something to run if and only if some event is earlier than the largest number, or is a primary event of that time; otherwise Run repeats empty rounds |
| ParallelEngineStall.LargestTimeNeverRuns | akita/sim/parallelengine.go:154-169 | A run with a secondary event at the largest number: every round is empty and ends in the state it started from, and the event never runs |
| ParallelEngineRuns.StepKeeps | akita/sim/parallelengine.go:105-278 | Every step of main loop and workers keeps the invariant |
| ParallelEngines.ParallelEngine.EarliestTimeInQueueGroup | akita/sim/parallelengine.go:154-169 | The loop finds the smallest time in the queues, or the largest number |
| ParallelEngines.ParallelEngine.HasMoreEvents | akita/sim/parallelengine.go:194-218 | True exactly when some queue is not empty |
| ParallelEngines.ParallelEngine.DetermineWhatToRun | akita/sim/parallelengine.go:140-152 | Chooses the earlier kind, primary on a tie, and sets the time |
| ParallelEngines.ParallelEngine.RunEventsUntilConflict | akita/sim/parallelengine.go:220-242 | Exactly the events of time now leave the queues |
| ParallelEngines.ParallelEngine.RunRound | akita/sim/parallelengine.go:171-183 | A round touches only the queues of its kind and runs exactly their events of time now |
| MigrationResults.OnePhaseAtATime | mgpusim/driver/driver.go:542-826 | In every reachable state only the current phase's requests are unanswered, each counter equals its unanswered requests, and so at most one counter is non-zero; a request is held exactly while one is handled |
| MigrationResults.OneCopyInFlight | mgpusim/driver/driver.go:714-734 | At most one page copy is on its way, and only in the copy phase |
| MigrationResults.PhasesInOrder | mgpusim/driver/driver.go:542-826 | Every step stays in its phase or goes to the next: drain, shootdown, copy, GPU restart, RDMA restart, idle; an empty list ends this order where it is needed; only parseFromMMU starts a migration |
| MigrationResults.OneReplyPerMigration | mgpusim/driver/driver.go:736-793 | Each finished migration prepared one reply, in order, listing exactly the pages of its request |
| MigrationResults.AllPagesCopied | mgpusim/driver/driver.go:621-763 | Once the copies are done, exactly the pages of the request were copied, each as often as requested |
| MigrationResults.ReplyListsCopiedPages | mgpusim/driver/driver.go:736-793 | When a reply is prepared, the pages it lists are the pages copied |
| MigrationResults.PatientMMUGetsAllReplies | akita/mem/vm/mmu/mmu.go:219-255 | If the MMU asks again only after it has its reply, every prepared reply is sent, in order |
| MigrationResults.RepliesLostExactly | mgpusim/driver/driver.go:765-793 | In general a reply is lost exactly when the copies of a migration finish while the previous reply is still to be sent |
| MigrationOverwrite.ImpatientMMULosesReply | mgpusim/driver/driver.go:542-563 | A run in which an MMU that does not wait loses a reply: parseFromMMU does not look at toSendToMMU |
| MigrationProgress.RunWork | mgpusim/driver/driver.go:542-826 | Over every run the steps made and the work left are the work at the start and what came in: every step of driver, GPUs and MMU port takes exactly one off, so each migration takes a number of steps known from its request |
| MigrationProgress.HangsIffEmpty | mgpusim/driver/driver.go:565-664 | From any reachable state, the migration at hand can come to a state that nothing leaves if and only if its request has no accessing GPU or no page |
| MigrationProgress.NoAccessingGPUHangs | akita/mem/vm/mmu/mmu.go:225-241 | A run into such a state from the initial one, with a request for page 7 that names no accessing GPU |
| MigrationProgress.EmptyRequestHangs | mgpusim/driver/driver.go:542-664 | From the initial state every request with an empty list leads there |
| MigrationWake.QuietTick | mgpusim/driver/driver.go:165-181 | A tick reports no progress if and only if it sent, took up and created nothing and found the GPU port empty, or took a shootdown response that was not the last one |
| MigrationTicks.WhatATickDoes | mgpusim/driver/driver.go:165-198 | A tick sends at most one request, one copy and one reply, all of which were there when it began, takes responses from the front only, and leaves no request of the MMU waiting while none is handled |
| MigrationWake.ReachableIsReady | mgpusim/driver/driver.go:200-228 | In every reachable state the handlers can run: responses to a migration come only while there is one |
| MigrationHangs.WakeLostExactly | akita/sim/ticker.go:137-145 | Over all reachable states, a response waits in the port of a sleeping driver exactly after a tick that took a shootdown response, not the last one, with another response behind it, and did nothing else, when no message had asked for the next tick; any further message wakes the driver |
| MigrationHangs.SleepIsSafe | akita/sim/ticker.go:122-145 | Otherwise a sleeping driver has nothing to do: what is to be sent waits for a port that owes a notification, copies for the one on its way, requests for the end of the migration |
| MigrationHangs.QuietIsStable | akita/sim/ticker.go:122-145 | The states in which nothing can happen without help from outside are those with no tick, no notification and no response to come |
| MigrationHangs.HangsExactly | mgpusim/driver/driver.go:542-826 | In such a state everything is finished if and only if no wake-up was lost and the request at hand has no empty list |
| MigrationHangs.MigrationNeverHangs | mgpusim/driver/driver.go:542-826 | So with non-empty lists a migration never hangs if it has one accessing GPU, or if the driver gets at most one response per cycle |
| MigrationHangs.OnePerCycleNeverStrands | mgpusim/driver/driver.go:200-228 | With at most one response per cycle no wake-up is lost and at most two responses are ever in the port |
| MigrationHangs.RunsAreBounded | mgpusim/driver/driver.go:165-181 | Every run of driver ticks, cycles, deliveries and notifications comes to such a state: their number is bounded by the work at the start and what came from outside |
| MigrationAsleep.TwoResponsesInOneCycleHang | mgpusim/driver/driver.go:621-664 | A run with two accessing GPUs whose shootdown responses arrive in one cycle: the driver sleeps, the second response waits, and the migration does not end |
| MigrationProgress.EmptyListsHang | mgpusim/driver/driver.go:565-664 | The steps after which no counter waits for anything are exactly: no GPU, no accessing GPU, no page |
| MigrationProgress.HungForever | mgpusim/driver/driver.go:542-563 | Such a migration never ends and no other one is taken up |
| MigrationResults.PagesMoveWithTheirCopies | mgpusim/driver/driver.go:621-712 | For any order of visiting the GPUs, and even if a page is listed twice, there is one copy per listed page, to the GPU visited, from where the page is by then into a fresh frame; the page table has the last one; no other page moves |
| MigrationResults.EachGPUGetsItsList | mgpusim/driver/driver.go:638-660 | The copies sent to a GPU bring exactly the pages listed under it, in the order of its list; a GPU without a list gets none |
| MigrationResults.PagesGoWhereAsked | mgpusim/driver/driver.go:693-712 | A page ends on a known GPU that lists it, and stays unchanged when none does |
| MigrationResults.RequesterGetsThePage | mgpusim/driver/driver.go:693-712 | A page that exactly one known GPU g lists ends with device g, and all its copies go to GPU g - 1 of the list of GPUs |
| MigrationResults.EveryGPUDrains | mgpusim/driver/driver.go:565-574 | A migration begins with one drain request for every GPU |
| MigrationResults.AccessingGPUsShootDown | mgpusim/driver/driver.go:589-619 | After the last drain, and only then, every accessing GPU is asked to shoot down exactly the pages listed under known GPUs |
| MigrationResults.SameGPUsRestart | mgpusim/driver/driver.go:751-763 | After the last copy, and only then, the GPUs that shot down are asked to restart, in the same order |
| MigrationResults.EveryRdmaRestarts | mgpusim/driver/driver.go:795-813 | After the last restart, and only then, every GPU is asked once to restart its RDMA |
| MigrationResults.MigrationKeepsContents | mgpusim/driver/driver.go:693-734 | After the copies of a migration, made one after the other, every page has in its frame of the new page table what it had before in its old one |
| MigrationModel.PagesInAnyOrder | mgpusim/driver/driver.go:644-660 | Go's map iteration order does not change which pages are visited |
| MigrationRuns.StepKeeps | mgpusim/driver/driver.go:165-181 | Every step of driver, GPUs and MMU keeps the invariant |
| Drivers.Driver.ParseFromMMU | mgpusim/driver/driver.go:542-563 | Takes up a request only when none is being handled |
| Drivers.Driver.InitiateRDMADrain | mgpusim/driver/driver.go:565-574 | One drain request and one expected acknowledgement per GPU |
| Drivers.Driver.ProcessRDMADrainRsp | mgpusim/driver/driver.go:576-587 | The last acknowledgement starts the shootdown |
| Drivers.Driver.SendShootDownReqs | mgpusim/driver/driver.go:589-619 | The loops collect the pages of all known GPUs and send them to every accessing GPU |
| Drivers.Driver.FindRequestingGPUs | mgpusim/driver/driver.go:666-678 | The loop collects the GPUs that pages go to |
| Drivers.Driver.ProcessShootdownCompleteRsp | mgpusim/driver/driver.go:621-664 | The last acknowledgement prepares the copies of all pages; progress is reported only then |
| Drivers.Driver.PreparePage | mgpusim/driver/driver.go:693-712 | Gives the page a fresh frame and remembers the old one in the copy request |
| Drivers.Driver.ProcessPageMigrationRspFromCP | mgpusim/driver/driver.go:736-749 | The last copy starts the restart and prepares the reply |
| Drivers.Driver.PreparePageMigrationRspToMMU | mgpusim/driver/driver.go:765-793 | The loops list the pages of all requesting GPUs |
| Drivers.Driver.HandleGPURestartRsp | mgpusim/driver/driver.go:795-813 | The last acknowledgement starts the RDMA restart |
| Drivers.Driver.ProcessRDMARestartRspToDriver | mgpusim/driver/driver.go:815-826 | The last acknowledgement ends the migration |
| Drivers.Driver.ProcessReturnReq | mgpusim/driver/driver.go:200-228 | Dispatches on the response and reports the handler's progress |
| Drivers.Driver.SendMigrationReqToCP | mgpusim/driver/driver.go:714-734 | Sends the next copy only when none is on its way |
| Drivers.Driver.SendToGPUs | mgpusim/driver/driver.go:183-198 | Sends the first request if the port accepts it |
| Drivers.Driver.Tick | mgpusim/driver/driver.go:165-181 | One tick with all its parts (sends, middlewares, responses, commands, requests): driver, ports and messages change as in the runs above, and progress is reported exactly as there |
| Dispatch.LaunchPartitionsGrid | mgpusim/driver/driver.go:374-463 | The GPUs together produce every work-group of the grid exactly once if and only if the number of groups fits in 32 bits |
| Dispatch.HugeLaunchLosesGroups | mgpusim/driver/driver.go:442-446 | A grid of 2^32 groups: the counted product is 0, each CU gets one group and all others are lost |
| LaunchPoints.LaunchCoversGrid | mgpusim/driver/driver.go:374-463 | Over all GPUs, work-groups and work-items a unified launch has exactly one work-item for every point of the grid, and none beyond, if and only if the number of groups fits in 32 bits |
| LaunchPoints.FilledItems | mgpusim/kernels/gridbuilder.go:150-163 | The items counted there are those of the groups that NextWG returns |
| Dispatch.CoversIffNoWrap | mgpusim/driver/driver.go:428-463 | The distribution reaches the end of the grid if and only if the number of groups is below 2^32 |
| Dispatch.AllAllocated | mgpusim/driver/driver.go:455-457 | The panic about unallocated work-groups cannot happen |
| Dispatch.PerCUIsLeast | mgpusim/driver/driver.go:442-446 | A CU gets the least number of groups with which all CUs together take the grid |
| Dispatch.OneGPUAccepts | mgpusim/driver/driver.go:395-411 | Each work-group below the end of the distribution passes exactly one GPU's filter |
| Dispatch.FilterIsInterval | mgpusim/driver/driver.go:395-411 | The filter closure accepts exactly the flattened identifiers of its GPU's interval |
| Dispatch.WantedIsInterval | mgpusim/kernels/gridbuilder.go:95-148 | A builder with such a filter produces exactly the existing groups of the interval, each once |
| Dispatch.DistributeWGToGPUs | mgpusim/driver/driver.go:428-463 | The loop fills wgDist with consecutive intervals and does not panic |
| Dispatch.ProcessUnifiedLaunch | mgpusim/driver/driver.go:374-426 | The requests made for GPUs with a non-empty interval together produce every work-group exactly once, if and only if the number of groups fits in 32 bits; a request exists exactly for a GPU with a positive share, accepts exactly the groups behind those of the GPUs before it, and produces at most that many; a CU gets no more groups than needed |
| Grid.PointHasItem | mgpusim/kernels/gridbuilder.go:95-163 | Every grid point belongs to an existing work-item of an existing work-group |
| Grid.ItemHasPoint | mgpusim/kernels/gridbuilder.go:95-163 | Every work-item stands for a grid point, and no two for the same |
| Grid.GroupExists | mgpusim/kernels/gridbuilder.go:98-107 | A group exists exactly when a point is left for it, and the last one takes all that is left |
| GridBuilders.GridBuilder.SetKernel | mgpusim/kernels/gridbuilder.go:43-55 | Restarts the enumeration and counts the groups |
| GridBuilders.GridBuilder.CountWG | mgpusim/kernels/gridbuilder.go:63-89 | NumWG equals the number of groups that NextWG will produce, although the loops visit them in another order; without a filter this holds if and only if no grid size is zero |
| GridBuilders.ZeroGridCounts | mgpusim/kernels/gridbuilder.go:63-73 | A grid without points: 2^32 groups are counted and none is produced |
| GridBuilders.GridBuilder.NextWG | mgpusim/kernels/gridbuilder.go:95-148 | Returns the next group that passes the filter, with its sizes, items and wavefronts, or nothing at the end |
| GridBuilders.GridBuilder.Skip | mgpusim/kernels/gridbuilder.go:57-61 | Drops the next n groups that pass |
| GridBuilders.SpawnWorkItems | mgpusim/kernels/gridbuilder.go:150-163 | The nested loops list the items of the group, x fastest |
| GridBuilders.FormWavefronts | mgpusim/kernels/gridbuilder.go:165-183 | The loop cuts the items in front of every identifier that is a multiple of 64 and sets exactly the lanes of the items in the masks |
| Wavefronts.FullGroupWavefronts | mgpusim/kernels/gridbuilder.go:165-183 | In a group that is full in x and y wavefront k holds exactly the identifiers 64k to 64k+63 that exist, and its mask has exactly their lanes |
| Wavefronts.FullGroupLanes | mgpusim/emu/computeunit.go:285-301 | In such a group item i is in wavefront i / 64, its lane i % 64 is on, and after initWfRegs the registers of this lane hold exactly its three identifiers |
| Wavefronts.FitIffBlocksStart | mgpusim/kernels/gridbuilder.go:165-183 | Wavefronts fit their 64 lanes if and only if each occupied block of 64 identifiers has its first one |
| Wavefronts.LanesAreItems | mgpusim/kernels/gridbuilder.go:165-183 | Under that condition lane l is on exactly when identifier first + l exists in the group |
| Wavefronts.ItemsIncrease | mgpusim/kernels/gridbuilder.go:150-163 | Items come in the order of their flattened identifiers |
| Wavefronts.LanesInvertFlat | mgpusim/kernels/grid.go:77-79 | The divisions of initWfRegs give back the identifiers that FlattenedID combines |
| Wavefronts.InitWfRegs | mgpusim/emu/computeunit.go:285-301 | The lane loop writes those divisions into the enabled registers of all 64 lanes and leaves the others alone |
| Wavefronts.LaneHoldsItemIffItFits | mgpusim/emu/computeunit.go:285-301 | The lane that the mask turns on for an item holds its identifiers if and only if the item lies within 64 of the wavefront's first one |
| Wavefronts.RaggedGroupOverflows | mgpusim/kernels/gridbuilder.go:165-183 | A group of 10 by 2 items of size 100 by 2: the item with identifier 100 is in the wavefront that starts with 0, and its lane holds identifiers of another item |
| Storages.Storage.CreateOrGetStorageUnit | akita/mem/mem/storage.go:70-84 | Fails exactly beyond the capacity; a new unit changes nothing that can be read |
| Storages.Storage.Read | akita/mem/mem/storage.go:92-122 | Returns the bytes of the flat memory, fails exactly when a unit is looked up beyond the capacity, and changes nothing observable |
| Storages.Storage.Write | akita/mem/mem/storage.go:124-153 | Changes exactly the bytes of the range, or those before the refused unit |
| Storages.InCapacityIsServed | akita/mem/mem/storage.go:70-84 | An access inside the capacity is never refused, for any unit size |
| Storages.RefusedExactly | akita/mem/mem/storage.go:70-153 | An access is refused exactly when its own address or a later unit start within it is greater than the capacity, so one at the capacity is served |
| FlatMemory.RunAll | akita/mem/mem/storage.go:70-153 | Every run of reads and writes inside the capacity returns what a flat, zero-initialised memory returns |
| FlatMemory.UnitSizeDoesNotShow | akita/mem/mem/storage.go:45-66 | Two storages with different unit sizes cannot be told apart inside the capacity |
| FlatMemory.UnitSizeShowsBeyondCapacity | akita/mem/mem/storage.go:70-73 | Beyond the capacity they can |
| PageTables.ProcessTable.Consistent | akita/mem/vm/pagetable.go:117-173 | The map finds exactly what the list holds, and the list holds at most one page per address |
| PageTables.ProcessTable.Insert | akita/mem/vm/pagetable.go:125-133 | Appends the page; panics exactly when a page of the address exists |
| PageTables.ProcessTable.Remove | akita/mem/vm/pagetable.go:135-144 | Takes the page out of the list; panics exactly when no page starts at the address as given, since Remove does not align it |
| PageTables.RemovableIffAligned | akita/mem/vm/pagetable.go:135-144 | The page that contains an address can be removed by it if and only if the page starts there |
| PageTables.UnalignedRemovePanics | akita/mem/vm/pagetable.go:135-144 | Find sees the page at 4096 under address 4100, and Remove panics |
| PageTables.ProcessTable.Update | akita/mem/vm/pagetable.go:146-154 | Replaces the page where it stands; panics exactly when there is none |
| PageTables.ProcessTable.Find | akita/mem/vm/pagetable.go:88-92 | Finds the page that starts where the page of the address starts |
| PageTables.ProcessTable.UpdateAccessCounts | akita/mem/vm/pagetable.go:101-108 | Adds one to the count of the page that holds the address and changes nothing else |
| PageTables.ProcessTable.GetLastPage | akita/mem/vm/pagetable.go:182-194 | Returns the page inserted last |
| PageTables.InsertThenRemove | akita/mem/vm/pagetable.go:125-144 | Removing an inserted page restores the table |
| PageTables.UpdateIsFound | akita/mem/vm/pagetable.go:146-166 | An updated page is found in its old place, and no other page is found differently |
| PageTables.RemoveForgets | akita/mem/vm/pagetable.go:135-166 | A removed page is not found, and every other page is found as before |
| Copies.ProcessMemCopyH2D | mgpusim/driver/memorycopyglobalstorage.go:43-63 | Puts the bytes of the range at the physical places of their virtual addresses, except in chunks that the storage refuses, whose errors are ignored |
| Copies.ProcessMemCopyD2H | mgpusim/driver/memorycopyglobalstorage.go:76-101 | Reads the bytes at the physical places of the range, and zeros for refused chunks |
| Copies.AccessorRead | mgpusim/emu/storageaccessor.go:17-54 | Reads the same bytes, cutting the range where the next page starts; panics exactly if a page is missing or a chunk is refused |
| Copies.CopyRoundTrip | mgpusim/driver/memorycopyglobalstorage.go:31-112 | For any address and length over scattered disjoint frames, a copy to the device followed by a copy back returns each byte whose chunk the storage serves, and zeros otherwise; a read of the emulator that does not panic returns all of them; no other mapped byte changes |
| Copies.InsideIsServed | akita/mem/mem/storage.go:70-84 | Chunks in frames inside the capacity are always served |
| Copies.PhysInjective | akita/mem/vm/pagetable.go:88-92 | Different mapped virtual bytes have different physical addresses |
| Copies.BeyondCapacityIsLost | mgpusim/driver/memorycopyglobalstorage.go:57-57 | A page in a frame beyond the capacity: bytes copied there come back as zeros |
| Copies.ReadsBack | mgpusim/driver/memorycopyglobalstorage.go:31-112 | What is read back are the bytes placed if and only if every byte is zero or in a served chunk, and every other mapped byte is as before |
| Copies.AccessorWrite | mgpusim/emu/storageaccessor.go:56-90 | Writes one physical run that starts at the place of the first byte, since every chunk is translated with the first page; panics exactly if that page is missing or a chunk of the run is refused |
| Copies.AccessorWriteRightIff | mgpusim/emu/storageaccessor.go:56-90 | Whatever the memory and the bytes, the memory after the write has every byte in its place and no other changed, if and only if the frames of the pages follow each other |
| Copies.ScatteredFramesMisplace | mgpusim/emu/storageaccessor.go:69-69 | Two pages in the frames at 0 and 64: bytes of the second page go to the frame behind the first one |
| Directories.Directory.Visit | akita/mem/cache/directory.go:111-120 | Moves the block to the back of its set's queue, through the shared backing array; all queues stay permutations of their blocks, least recently visited first |
| Directories.Directory.Reset | akita/mem/cache/directory.go:128-141 | Fresh invalid blocks in every set, queues in way order |
| Directories.Directory.Lookup | akita/mem/cache/directory.go:78-98 | Finds a valid block of the tag and process exactly when the set of the converted address has one |
| Directories.Directory.FindVictim | akita/mem/cache/directory.go:104-108 | The least recently visited block that is neither valid nor locked, else the least recently visited unlocked one, else the least recently visited one |
| Directories.Directory.BlocksInTurn | akita/mem/cache/directory.go:78-86 | The internal address (q * sets + i) * blockSize + r belongs to set i, with or without an address converter |
| Directories.Directory.NeighbourSets | akita/mem/cache/directory.go:78-86 | Addresses of one block have one set, and the next block has the next set, modulo the number of sets |
| Directories.LRUFindVictim | akita/mem/cache/victimfinder.go:19-34 | Two passes over the queue, then its head |
| Directories.VisitKeepsAge | akita/mem/cache/directory.go:111-120 | Moving the visited block to the end keeps the queue a permutation ordered by last visit |
| Directories.DeleteAt | akita/mem/cache/directory.go:115-115 | append(q[:i], q[i+1:]...) shifts within the same array |
| Directories.Append | akita/mem/cache/directory.go:119-119 | append(q, x) writes in place when there is room and into a new array otherwise |
| Interleaving.ConvertIsInjective | akita/mem/mem/addressconverter.go:26-42 | No two addresses of one element become the same internal address |
| Interleaving.ConvertInverts | akita/mem/mem/addressconverter.go:26-42 | When the interleaving size divides the offset, external = offset + internal/size*round + index*size + internal%size |
| Interleaving.InternalIsUsed | akita/mem/mem/addressconverter.go:26-42 | And every internal address is reached by that external one |
| Interleaving.ConvertsIffFound | akita/mem/mem/lowmodulefinder.go:34-41 | When a round divides the offset, an element converts an in-range address exactly when Find sends it there |
| Interleaving.AcceptsIffRouted | akita/mem/mem/lowmodulefinder.go:34-41 | For all addresses behind the offset the two agree if and only if a round divides the offset or there is one element |
| Interleaving.RowsInOrder | akita/mem/mem/addressconverter.go:26-42 | Whatever the offset, an accepted address keeps its byte in the interleaving unit, and its internal unit is the number of whole rounds behind the offset |
| Interleaving.OutsideGoesElsewhere | akita/mem/mem/lowmodulefinder.go:34-41 | Find answers the module for other addresses exactly when the address space is limited and the address lies outside it |
| SweepLine.CalculateAvgTaskCount | akita/daisen/componentinfo.go:335-375 | Average times bin length equals the signed sum over the stamps, for any order among equal times; the panic about a negative duration cannot happen |
| SweepLine.StampsGiveOverlap | akita/daisen/componentinfo.go:377-399 | Over start and end stamps that sum is the total time the tasks overlap the bin |
| SweepLine.SumOfPermutation | akita/daisen/componentinfo.go:396-396 | The sum does not depend on the order that sorting chooses |
| SweepLine.TaskToTimeStamps | akita/daisen/componentinfo.go:377-399 | The loop lists both stamps of every task; sorting permutes them by time |
| SweepLine.GetTasksInBin | akita/daisen/componentinfo.go:401-429 | Keeps exactly the tasks that touch the bin, and with them the whole overlap |
| SweepLine.AverageInBin | akita/daisen/componentinfo.go:303-310 | Average times bin length equals the sum over all tasks of their overlap with the bin |
| SweepLine.Diagram | akita/daisen/componentinfo.go:297-320 | However many bins there are, their values times the bin length add up to the overlap of all tasks with the whole interval |
| Vop3b.ChainIsExact | mgpusim/emu/aluvop3b.go:35-142 | V_ADD_U32 then V_ADDC_U32 over any number of limbs gives the exact sum and final carry in every active lane; V_SUBREV_U32 then V_SUBBREV_U32 the exact difference and final borrow |
| Vop3b.InactiveLanesKeep | mgpusim/emu/scratchpadpreparer.go:449-468 | Inactive lanes keep all their vector registers through a chain |
| Vop3b.CarryPasses | mgpusim/emu/scratchpadpreparer.go:169-192 | The carry-out of a lane is what the next instruction reads as its carry-in, through a scalar register pair or VCC |
| Vop3b.MaskRoundTrip | mgpusim/emu/wavefront.go:73-151 | A 64-bit mask written to a scalar register pair or to VCC is read back unchanged |
| Vop3b.LaneIsExact | mgpusim/emu/aluvop3b.go:35-142 | The 64-bit wrap and the comparison with 0xffffffff give the exact 32-bit result and carry or borrow of a lane |
| Vop3b.BitOfWord | mgpusim/emu/aluvop3b.go:94-94 | Shifting and masking a 64-bit value reads the flag of a lane |
| Vop3b.FlagsOfPair | mgpusim/emu/wavefront.go:73-151 | In a scalar register pair lanes 0 to 31 have their flags in the first register and lanes 32 to 63 in the second |
| Vop3b.InactiveCarriesNothing | mgpusim/emu/scratchpadpreparer.go:449-468 | The carry-out of an inactive lane is 0 |
| Vop3b.OnlyResultsChange | mgpusim/emu/scratchpadpreparer.go:449-468 | An instruction changes no vector register but its destination and no mask but its carry-out |
| Vop3bUnits.Scratchpad.Clear | mgpusim/emu/scratchpadpreparer.go:588-592 | The loop zeroes the scratchpad |
| Vop3bUnits.Scratchpad.PrepareVOP3b | mgpusim/emu/scratchpadpreparer.go:169-192 | The loop loads the operands of every lane, EXEC and VCC |
| Vop3bUnits.Scratchpad.Run | mgpusim/emu/aluvop3b.go:35-142 | The lane loop stores results and carries of the active lanes |
| Vop3bUnits.Scratchpad.CommitVOP3b | mgpusim/emu/scratchpadpreparer.go:449-468 | The loop writes back the active lanes, then the carry mask |
| Vop3bUnits.Scratchpad.Step | mgpusim/emu/aluvop3b.go:8-33 | Prepare, run and commit together compute the specification of the instruction |
| Vop3bUnits.Scratchpad.RunChain | mgpusim/emu/aluvop3b.go:35-142 | Instructions run one after the other compute the chain |

## Left out

- Floating-point time: times are exact reals, so rounding in `Freq` and in the sweep line is not modelled.
- 64-bit overflow of counters, sizes and of address plus length: naturals are unbounded except where the table says so
  (uint32 group counts, uint64 decrements of acknowledgement counters, register words).
- container/heap: the serial engine uses the insertion queue; the state machines take any event of the smallest time.
- Connections.Port: a port object knows its owner and its connection only through their tick schedulers; the buffer of
  `akita/sim/buffer.go` is its `buf` field and capacity.
- Connections.DirectConnection: what it reaches through its ports (buffers and the shared clock) is a value held by
  the object, so two connections updating one port object are not modelled; ports are named by their index.
- Connections.Channel: likewise, and its two pipelines are values updated through the specification that
  `Pipelines.Pipeline` implements.
- Simulation runs contain one connection; the other parts of the simulator may send, ask, retrieve, schedule and wake
  at any time, and `SendTime` is the current time. Agents that retrieve inside `NotifyRecv` are excluded.
- Messages that make `Send` panic (missing or unconnected ports, source equal to destination) are excluded by the
  precondition.
- ParallelEngines.ParallelEngine.RunRound: handlers that schedule while the loop runs appear only in the state
  machine.
- Drivers.Driver.Tick: of middlewares and new commands only the requests they create, the response a middleware takes
  and whether they report progress; requests that are not part of a migration are all alike.
- MigrationWake.Timed: the driver's clock is reduced to one tick pending for this cycle and one for the next, and
  connections to the notifications they owe; `Kernel.TickLaterExactlyOne` is the fact behind it.
- Drivers.Driver.PreparePage: the allocator returns the next of an unbounded supply of fresh frames, and the page
  table is that of the migrating process; `findContext` is left out.
- Connecting the driver's launch requests to command queues, code objects, packet copies and tracing.
- GridBuilders.GridBuilder.NextWG: the filter sees the identifiers of a group, which is all that the driver's filter
  looks at; groups are values instead of linked objects.
- PageTables.ProcessTable: the outer map from process to table is left out; every operation works on the table of one
  process.
- Copies.ProcessMemCopyH2D: command queues and the encoding of Go values into bytes are left out, and no address
  converter is modelled in copies.
- Directories.Directory: only the block fields that lookup and replacement use.
- Directories.Append: a full slice grows to twice its capacity, as Go does for small slices.
- Vop3bUnits.Wavefront: registers are 32-bit words instead of bytes, masks 64 flags; source operands are vector
  registers.
- V_SUB_U32, V_SUBB_U32 and V_DIV_SCALE_F64 of the same format, and the abs and neg modifiers.
- Locks, hooks, tracing, names, identifiers, logging, and all HTTP, SQL, ELF, Python and platform-building code.
- Caches, TLBs, DRAM, mesh networks and the MMU beyond its waiting for a reply.
