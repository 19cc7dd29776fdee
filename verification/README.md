# Verified model of the go-streams operators

This project models the `flow` package of go-streams, the operators between a source and a
sink, and proves what they promise on every input and every schedule.

An operator is a few goroutines joined by channels, a wait group, a mutex or an atomic
counter. Its code appears here twice, where that is possible:

* as an **object or a loop**: the fields the source has, methods with the source's branches
  and loops, each proved against a specification function (`SlidingWindow`, `Throttlers`,
  `KeyedRouter`, `WindowBuffers`, `Batches`, `ZipWith`, and the loops in `Stages`);
* as a **protocol**: a state with one program counter for each goroutine, and one predicate for each
  atomic step. A run is any sequence of states in which each follows from the one before by
  some step, so a theorem about runs is about every interleaving. `select` is a choice among
  the ready cases. A send on an unbuffered channel is a rendezvous with a receiver that is
  ready. State components marked as history are never read by a step.

Times and durations are integer nanoseconds. A timer never fires early; that is all that is
assumed about clocks. Channel elements are values of `Stages.Any`, which is Go's `any`, or of
a type parameter.

| file | what it holds |
|---|---|
| `Sequences.dfy`, `Shuffles.dfy`, `Sums.dfy`, `Events.dfy` | filters, concatenations, permutations, interleavings, finite sums, events |
| `SlidingWindow.dfy` | window alignment, sort, one-pass extraction, dispatch |
| `SlidingRuns.dfy`, `SlidingTheorems.dfy`, `SlidingProgress.dfy`, `SlidingDriver.dfy` | the two goroutines of the sliding window, what every run guarantees, that no run deadlocks and ticks can be on time, and the object driven through a run |
| `SlidingCounterexamples.dfy`, `ThrottlingCounterexamples.dfy` | runs that do what the documentation does not say |
| `Throttling.dfy`, `ThrottlingPeriods.dfy`, `ThrottlingDelivery.dfy`, `Throttlers.dfy` | the lock-free quota protocol, what a period sends, where the elements are, and the throttler object |
| `Stages.dfy`, `Chains.dfy`, `Pipelines.dfy` | single-worker operators as transducers, chains of them, whole pipelines |
| `WorkerPools.dfy` | FlatMap, Map and Filter with any number of workers |
| `Joins.dfy`, `Routers.dfy`, `KeyedRouter.dfy`, `RoundRobins.dfy`, `FanOuts.dfy` | Merge, Keyed, Split, RoundRobin, FanOut |
| `JoinBounds.dfy`, `RunBounds.dfy` | every run of those networks is finite |
| `ZipWith.dfy` | ZipWith |
| `Windows.dfy`, `WindowBuffers.dfy` | session and tumbling windows |
| `Batches.dfy` | Batch |

## Where the code and its documentation differ

The model follows the code. For each difference there is a lemma with a concrete run or input,
or with the exact condition under which the two agree.

* **SlidingWindow, first element.** Its event time fixes the lower boundary with a truncated
  remainder. Before the Unix epoch the boundary can lie after the element, which is then dropped by
  the window it starts (`FirstElementIsKeptIff`, `FirstElementDropped`).
* **SlidingWindow, shutdown.** "All remaining data is processed" holds only of elements that
  are not later than the last window, and only if the initial delay had elapsed
  (`EmittedAtClose`, `ShutdownLosesElements`).
* **SlidingWindow, lateness.** The event time is read before the mutex is taken, and a dispatch
  holds the mutex while it sends. An element received in time is discarded exactly if a
  dispatch moves the boundary past it while it waits for the mutex, and misses exactly the
  windows dispatched in that time (`NoDataLoss`; `HeldUpElementDropped` is such a run).
* **Throttler.** "The maximum number of elements to be produced per the given period" can be
  passed, by two at most. There are two ways, which can come together. A signal wakes the
  consumer after the quota granted by its reset is used up, and the element is counted. Or,
  since an element is counted before its blocking send, one counted before the reset is sent
  after it. `SendsExceedIff` is the exact condition, `PeriodSends` the bound;
  `MaximumCanBeExceeded`, `CarriedSendExceeds` and `BothExceed` are runs for each case. With store
  and signal as one step only the second way is left, and the excess is one at most
  (`AtomicSendsExceedIff`). What a period counts, rather than sends, passes the maximum by one at
  most, in the first way only (`OverQuotaIff`, `AtomicResetKeepsMaximum`).
* **SessionWindow.** The reset signal can be lost. A buffered session is left with no timer
  running, until another element arrives or the input closes, exactly if the last signal was
  lost at a moment when the timer was spent and the swap of its dispatch was past
  (`SessionIsTimedIff`; `LostResetLeavesSessionOpen` is such a run).
* **Reduce.** The nil test starts the reduction over at every nil result, so the documented
  rolling reduction is computed exactly if starting over is harmless there (`ReduceRollsIff`).
  It is if no element and no result is nil (`NoNilMeansRolling`); `NilRestartsReduction` is a
  reduction for which it is not.
* **RoundRobin.** The distribution is called balanced, but the readers compete. It is balanced on every
  schedule exactly if there is at most one reader or at most one element (`BalancedIff`);
  otherwise some run gives one reader two elements more than another (`QuickReader`). What
  always holds is that they divide the source (`RoundRobinIsCorrect`).

## Model

| member | source | states |
|---|---|---|
| SlidingWindow.WindowStartIsAligned | flow/sliding_window.go:303-323 | from the epoch on the window start is the greatest multiple of the interval not after the event, before it the least not before it; neither leaves int64 |
| SlidingWindow.ZeroTimeIsItsOwnStart | flow/sliding_window.go:306-310 | Go's zero time is its own start, at distance 0 |
| SlidingWindow.SortByTime | flow/sliding_window.go:254-257 | the sort orders by event time and permutes; ties in any order |
| SlidingWindow.SortedSplit | flow/sliding_window.go:284-298 | on a sorted queue, stopping at the first element past a bound equals filtering by the bound |
| SlidingWindow.SlidingWindow.ProcessElement | flow/sliding_window.go:155-173 | an element older than the lower boundary is skipped, any other queued last |
| SlidingWindow.SlidingWindow.StreamFirst | flow/sliding_window.go:175-190 | the first element sets boundary and delta by its event time and is processed by a second reading of it |
| SlidingWindow.SlidingWindow.ExtractWindowElements | flow/sliding_window.go:268-301 | the one pass with lazy suffix copy and early break over the sorted queue: entry k of the result is the element at position k of the queue, the result stops just where the times pass the old lower boundary plus the size, and the queue that is left is the part after the new lower boundary |
| SlidingWindow.SlidingWindow.DispatchWindow | flow/sliding_window.go:250-266 | sorts, splits and moves on as `Dispatched` says, and sends the elements of the window, one by one and in its order, unless it is empty |
| SlidingRuns.DispatchSplits | flow/sliding_window.go:250-301 | a dispatch gives the window, and leaves the queue, that the closed form over the arrival history names |
| SlidingRuns.RunKeepsInv | flow/sliding_window.go:151-269 | what every interleaving of arrivals, timer, ticks, blocked sends and shutdown keeps |
| SlidingTheorems.WindowContents | flow/sliding_window.go:151-301 | every window of every run is sorted and holds, each as often as it arrived, exactly the elements that met a boundary not past them, are not after its upper boundary, and either met no dispatch before this one or are after its lower boundary; boundaries and conditions are written out |
| SlidingTheorems.LowerIs | flow/sliding_window.go:272-277 | window k starts k sliding intervals after the first one |
| SlidingTheorems.SentWindows | flow/sliding_window.go:259-265 | in every run what has reached the output is, in order and entry by entry, the elements of every nonempty window, but for the one being sent |
| SlidingTheorems.FirstElementIsKeptIff | flow/sliding_window.go:155-190 | in event-time mode the step of the first element queues it if and only if it is not before the epoch, is Go's zero time, or is aligned; otherwise the queue stays empty |
| SlidingCounterexamples.FirstElementDropped | flow/sliding_window.go:155-190 | a run whose first element, one nanosecond before the epoch, is not queued |
| SlidingTheorems.BoundariesAreAligned | flow/sliding_window.go:272-277 | all lower boundaries stay multiples of the interval |
| SlidingTheorems.WindowsAreConsecutive | flow/sliding_window.go:268-301 | the windows that hold an element are consecutive dispatches |
| SlidingTheorems.OverlapBound | flow/sliding_window.go:24-38 | an element is in at most size over interval windows, rounded up; with size equal to interval, in at most one |
| SlidingTheorems.DispatchLosesNothing | flow/sliding_window.go:284-301 | whatever a dispatch removes from the queue is in its window |
| SlidingTheorems.EmittedIff | flow/sliding_window.go:268-301 | after n dispatches exactly the accepted elements up to the last upper boundary have been emitted |
| SlidingTheorems.EmittedAtClose | flow/sliding_window.go:201-246 | at close an element has been emitted if and only if some window was dispatched, it was accepted, and it is not after the last upper boundary; every nonempty window has been sent |
| SlidingCounterexamples.ShutdownLosesElements | flow/sliding_window.go:222-230 | a run that closes during the initial delay and loses an accepted element |
| SlidingTheorems.NoTickIsEarly | flow/sliding_window.go:205-238 | with full windows only, no tick comes before its window is over by the allowed lateness, also when the initial delay is negative |
| SlidingProgress.ClosesAfterDispatch | flow/sliding_window.go:240-244 | an operator whose ticker has run does not close without dispatching again |
| SlidingProgress.TicksCanBeOnTime | flow/sliding_window.go:205-238 | for every configuration and first element there is a run whose tick n, counting from 0, comes exactly n + 1 intervals after the initial delay, written out for full and partial windows; a negative delay counts as none |
| SlidingProgress.TickIsDueIff | flow/sliding_window.go:228-238 | in every run tick n, counting from 1, can come if and only if n intervals have passed since the initial wait ended |
| SlidingProgress.TimerIsDueIff | flow/sliding_window.go:211-226 | in every run the initial wait can end if and only if, since the emission started, the allowed lateness has passed and, with full windows only, what is then left of the first window less one interval |
| SlidingTheorems.NoDataLoss | flow/sliding_window.go:155-173 | an element received at most the allowed lateness late meets a boundary not past it; it is discarded if and only if a dispatch moves the boundary past it while it waits for the mutex; it is in every dispatched window whose interior holds it, a forced last one included, except exactly those dispatched while it waits |
| SlidingTheorems.NoDataLossWithPartialWindows | flow/sliding_window.go:18-29 | with partial windows the same holds of the windows whose first interval holds the element |
| SlidingCounterexamples.HeldUpElementDropped | flow/sliding_window.go:155-169 | a run in which an element received in time is held up by a blocked send and dropped |
| SlidingProgress.SlidingCanMove | flow/sliding_window.go:175-246 | until the output is closed the operator can move by itself, or waits for its first element, or its timer or ticker brings it on without further input |
| SlidingDriver.Drive | flow/sliding_window.go:151-301 | for any elements and ticks and then the close the object's life is a run; each tick after the first element dispatches one window and the close one more if there was such a tick; each window is sorted and has exactly the contents that the events determine; the output is, in order and entry by entry, the elements of the nonempty windows |
| SlidingDriver.MetIs | flow/sliding_window.go:196-199 | each element is met in its turn, after the ticks seen before it |
| SlidingDriver.TicksSeenIs | flow/sliding_window.go:232-238 | the dispatches so far are as many as the ticks that came after some element |
| Throttling.RunKeepsQuota | flow/throttler.go:79-170 | what every interleaving of load, store, signal, park, add and send keeps of the counter |
| Throttling.QuotaHolds | flow/throttler.go:79-113 | the periods between resets cut what is delivered or being sent into consecutive pieces; the counter is the number of elements admitted since the last reset; a period admits at most the maximum before the first reset and one more after; r resets admit at most max + r (max + 1) |
| Throttling.CheckIs | flow/throttler.go:85-87 | in every run the consumer's check lets an element through if and only if fewer than the maximum have been admitted since the last reset, and otherwise sends it to wait |
| Throttling.OverQuotaIff | flow/throttler.go:99-113 | a period counts more than the maximum if and only if in that period a late signal woke the consumer and the consumer then counted its element |
| ThrottlingPeriods.PeriodSends | flow/throttler.go:160-167 | what a period has sent is what it has counted, plus a send under way at its reset, less one under way now; it passes the maximum by two at most, and never before the first reset |
| ThrottlingPeriods.SendsExceedIff | flow/throttler.go:46-51 | the documented maximum of elements produced per period is exceeded if and only if a late signal's element was counted, unless no send was under way at the reset and that element is still being sent, or the quota is used up with a send under way at the reset and none now |
| ThrottlingCounterexamples.MaximumCanBeExceeded | flow/throttler.go:99-113 | with a maximum of one, a run in which a late signal makes a period count and send two elements |
| ThrottlingCounterexamples.CarriedSendExceeds | flow/throttler.go:160-167 | with a maximum of one and store and signal in one step, a run in which a period sends two elements, one of them counted before |
| ThrottlingCounterexamples.BothExceed | flow/throttler.go:99-167 | with a maximum of one, a run in which a period sends three elements |
| ThrottlingPeriods.AtomicResetKeepsMaximum | flow/throttler.go:99-101 | with store and signal in one step no period counts more than the maximum |
| ThrottlingPeriods.AtomicSendsExceedIff | flow/throttler.go:99-101 | with store and signal in one step a period sends at most one element more than the maximum, and does if and only if its quota is used up, a send was under way at its reset and none is now |
| ThrottlingDelivery.BackpressureDelivers | flow/throttler.go:125-131 | delivered, in hand, buffered, blocked and still to come are always the input in order; all is delivered at the end |
| ThrottlingDelivery.DiscardDelivers | flow/throttler.go:117-124 | what is delivered, held and buffered is the consumed input without the dropped elements, in order |
| ThrottlingDelivery.KeptIff | flow/throttler.go:117-124 | an element is kept if and only if the elements kept so far, less those delivered and the one in hand, are fewer than bufferSize |
| ThrottlingDelivery.WaitsUntilWoken | flow/throttler.go:160-170 | in every run a consumer that is about to wait or waits for the quota goes on waiting, its element in hand and the reset loop running, until a signal wakes it |
| ThrottlingDelivery.FirstSignalWakes | flow/throttler.go:107-113 | once the consumer is parked, the first signal step wakes it, and nothing else does |
| ThrottlingDelivery.WaitingConsumerIsWoken | flow/throttler.go:91-113 | from any state with the consumer parked, that signal can come after at most one more store |
| ThrottlingDelivery.ThrottlerCanMove | flow/throttler.go:117-170 | until the consumer has finished an element can be brought on, at once or after one store |
| ThrottlingDelivery.RunPaysDebt | flow/throttler.go:117-170 | every run has at most eight such steps for each element of the input and two more |
| Throttlers.Throttler.ResetCounter | flow/throttler.go:98-100 | the store step, over the shared fields |
| Throttlers.Throttler.NotifyQuotaReset | flow/throttler.go:107-113 | the non-blocking signal step |
| Throttlers.Throttler.BufferSend | flow/throttler.go:117-131 | the buffering step of either mode |
| Throttlers.Throttler.CheckQuota | flow/throttler.go:79-82 | the load that decides whether to wait: the element goes to wait if the counter has reached the maximum, and is counted otherwise |
| Throttlers.Throttler.Run | flow/throttler.go:79-170 | the states that any schedule takes the object through are, turn by turn, those of its trace; the bound on deliveries holds at the end, and under back pressure a finished consumer has delivered all of its source |
| Throttlers.TurnsAreDetermined | flow/throttler.go:79-170 | a turn is a step of the protocol, or nothing if its goroutine is blocked or has ended, and has one outcome |
| Throttlers.IdleIffBlocked | flow/throttler.go:79-170 | a turn does nothing if and only if its goroutine is blocked or has ended, and is otherwise a step of the protocol |
| Throttlers.TraceIsRun | flow/throttler.go:79-170 | a trace without its blocked turns is a run of the protocol, so what holds of runs holds of the object |
| Stages.FlatMapStream | flow/flat_map.go:94-102 | one FlatMap worker computes its transducer |
| Stages.MapStream | flow/map.go:94-100 | one Map worker computes its transducer |
| Stages.FilterStream | flow/filter.go:98-106 | one Filter worker computes its transducer |
| Stages.FoldStream | flow/fold.go:83-90 | the Fold loop computes its transducer |
| Stages.ReduceStream | flow/reduce.go:80-91 | the Reduce loop, with its nil test, computes its transducer |
| Stages.PassThroughStream | flow/pass_through.go:63-68 | the PassThrough loop computes its transducer |
| Stages.MapOutputs | flow/map.go:94-100 | Map applies its function to every element, in order |
| Stages.FlatMapOutputs | flow/flat_map.go:50-62 | FlatMap is the concatenation of the results |
| Stages.FilterOutputs | flow/filter.go:13-21 | Filter keeps, in order, the elements that satisfy the predicate |
| Stages.PassThroughOutputs | flow/pass_through.go:63-68 | PassThrough changes nothing |
| Stages.FoldOutputs | flow/fold.go:10-18 | output i is the function of element i and the output before it, the initial value before the first |
| Stages.ReduceOutputs | flow/reduce.go:80-91 | output i is the function of the output before it and element i, and element i itself at the start and after a nil output |
| Stages.ReduceRollsIff | flow/reduce.go:74-91 | Reduce is the documented rolling reduction if and only if starting over at its nil results is harmless |
| Stages.NoNilMeansRolling | flow/reduce.go:74-91 | with no nil element and no nil result Reduce is the documented rolling reduction |
| Stages.NilRestartsReduction | flow/reduce.go:74-91 | a concrete reduction that a nil result starts over |
| Chains.ChainIsDeterministic | flow/map.go:79-106 | whatever the schedule, a chain has emitted a prefix of the composed function of what it was fed, and all of it once closed |
| Chains.ComposeSnoc | flow/util.go:10-19 | the composed function of no stage changes nothing, and a further stage works on what the others give |
| Chains.ChainCanMove | flow/pass_through.go:56-68 | a chain that is not closed can move unless it waits for its surroundings |
| Pipelines.PipelineIsDeterministic | flow/util.go:10-19 | in every reachable state of every schedule the sink holds a prefix of the composed function of the source, and all of it once the last channel closes |
| Pipelines.ViaComposes | flow/map.go:46-84 | the copying goroutines of Via and To do not change the composed function |
| Pipelines.JoinedIs | flow/map.go:46-84 | the stages alternate with the copying goroutines, in order, one before each stage and one after the last |
| Pipelines.PipelineCanMove | flow/util.go:10-19 | no schedule of a pipeline deadlocks |
| Pipelines.RunsAreBounded | flow/util.go:10-19 | every run of a pipeline is finite, with a bound |
| WorkerPools.NoSendAfterClose | flow/flat_map.go:89-109 | no worker sends on the closed output, for any parallelism |
| WorkerPools.PoolIsCorrect | flow/flat_map.go:86-109 | at close the output is a shuffle of the results: each whole and in order, a permutation together |
| WorkerPools.SingleWorkerKeepsOrder | flow/flat_map.go:33-38 | with one worker the output is the concatenation of the results in input order |
| WorkerPools.RunPaysDebt | flow/flat_map.go:89-109 | every step pays one unit of a debt fixed by the input and the parallelism, so every run ends |
| WorkerPools.PoolCanMove | flow/flat_map.go:89-109 | until the output is closed some goroutine can move |
| WorkerPools.WorkersRunInParallel | flow/flat_map.go:89-109 | a run in which as many workers as there are elements each hold one at the same time |
| WorkerPools.MapPoolIsCorrect | flow/map.go:86-106 | a Map pool outputs a permutation of the mapped input, with one worker the mapped input |
| WorkerPools.FilterPoolIsCorrect | flow/filter.go:90-112 | a Filter pool outputs a permutation of the filtered input, with one worker the filtered input |
| Shuffles.ShuffleIsPermutation | flow/util.go:82-105 | an interleaving of parts is a permutation of their concatenation |
| Joins.JoinMovesKeepsInv | flow/keyed.go:144-151 | no step of flows and forwarders breaks the join's invariant or changes what the flows were fed |
| Joins.JoinIsComplete | flow/util.go:82-105 | once the output is closed every forwarder has returned and the output holds every flow's whole result, in order, and nothing else |
| Joins.NoSendAfterClose | flow/util.go:89-102 | no forwarder sends on the closed output |
| Joins.MergeIsShuffle | flow/util.go:82-105 | Merge interleaves prefixes of its flows' results, closes only after all forwarders are done, and is then a shuffle of the whole results |
| Routers.KeysAreSeparate | flow/keyed.go:23-34 | at every moment each key's part of the output is a prefix of its own pipeline's result for the input with its key |
| Routers.RoutingIsCorrect | flow/keyed.go:74-95 | at close the output is a shuffle of each key's pipeline applied to exactly the input with that key, in order; there is one flow for each key of the input and no other |
| Routers.RoutingNeverSendsLate | flow/keyed.go:146-151 | no forwarder of a keyed flow sends after the output is closed |
| Routers.RoutingCanMove | flow/keyed.go:76-95 | until the output is closed some goroutine can move |
| RunBounds.RoutingRunsAreBounded | flow/keyed.go:76-95 | every run of Keyed and of a merged Split is finite, with a bound that depends on the input and the operators only |
| Routers.MergeUndoesSplit | flow/util.go:21-41 | at close the output holds, from the first flow, the elements of the source that satisfy the predicate, and from the second those that do not, each in order; together a permutation of the source |
| KeyedRouter.Keyed.GetKeyedFlow | flow/keyed.go:131-158 | for a key without one, and for no other, the chain of operators joined by Via is built, a forwarder started and the wait group raised |
| KeyedRouter.BuiltComposes | flow/keyed.go:136-142 | the chain that is built computes the composition of the operators |
| KeyedRouter.BuiltIs | flow/keyed.go:136-142 | the operators are built in order, with one copying goroutine between each two of them |
| KeyedRouter.Keyed.Stream | flow/keyed.go:76-90 | the routing loop gives each key of the input one workflow, counted and forwarded once, which receives the input with that key in order and is closed |
| KeyedRouter.KeyedIsPipelines | flow/keyed.go:23-34 | in every run of the network that is set up, each key's part of the output is a prefix of the operators' result for the input with its key, and all of it at close |
| RoundRobins.RoundRobinIsCorrect | flow/util.go:65-80 | the competing readers divide the source; at close the output is a shuffle of the flows' pipelines, each applied to what its reader received |
| RoundRobins.QuickReader | flow/util.go:65-80 | a run, for any two readers and any source of two elements or more, in which one has received two elements and the other none |
| RoundRobins.BalancedIff | flow/util.go:63-80 | the numbers of elements received differ by at most one in all reachable states if and only if there is at most one reader or at most one element |
| RoundRobins.RoundRobinCanMove | flow/util.go:65-105 | until the output is closed some goroutine can move |
| RunBounds.RoundRobinRunsAreBounded | flow/util.go:65-105 | every run of a merged round robin is finite, with a bound over all divisions of the source |
| RoundRobins.MergeUndoesRoundRobin | flow/util.go:65-105 | merging a round robin is a permutation of the source |
| FanOuts.FanOutCopies | flow/util.go:43-61 | every flow has received a prefix of the source, counts differing by at most one, and has passed on all of it once closed |
| FanOuts.FanOutCanMove | flow/util.go:43-61 | until the output is closed some goroutine can move |
| RunBounds.FanOutRunsAreBounded | flow/util.go:43-105 | every run of a merged fan-out is finite, with a bound |
| FanOuts.MergeOfFanOut | flow/util.go:43-105 | merging a fan-out is a shuffle of every flow's whole result |
| ZipWith.ReadRow | flow/util.go:130-149 | entry j of row r is element r of stream j, or zero if that stream is shorter; every outlet is read to row r |
| ZipWith.ZipHead | flow/util.go:128-153 | one head yields all the rows up to its length, each entry an element of its stream or zero, and leaves every outlet read to that row |
| ZipWith.ZipWith | flow/util.go:107-171 | the head and tail loop emits as many results as the longest stream has elements; result i is the combination of a row whose entry j is element i of stream j, or zero if that stream is shorter; every outlet is drained |
| ZipWith.MaxLengthIs | flow/util.go:107-113 | the number of rows is the length of the longest stream |
| Windows.WindowsConserveTheStream | flow/session_window.go:79-140 | sent windows, window in flight, buffer and element in hand are everything taken, in order; no window is empty; at close the windows cut the whole input |
| Windows.WindowsAreBuffers | flow/session_window.go:127-140 | in every run the windows sent and the one in flight are exactly the buffers that the dispatches found, each whole, in order, and without the empty ones |
| Windows.WindowsCanMove | flow/tumbling_window.go:77-118 | until the output is closed some goroutine can move |
| Windows.SessionIsTimedIff | flow/session_window.go:91-125 | once the signal of the newest buffered element has been sent, the timer is running or a dispatch that will swap the buffer is under way if and only if that signal was not lost with the timer spent and the swap past, or the input has ended and its last dispatch is under way |
| Windows.HeardSignalRestarts | flow/session_window.go:91-116 | a signal that finds the emitter waiting can be heard, and then the timer is restarted before anything else |
| Windows.LostResetLeavesSessionOpen | flow/session_window.go:91-97 | a run in which a lost signal leaves a session buffered with no timer running |
| WindowBuffers.Window.DispatchWindow | flow/tumbling_window.go:105-118 | the buffer is taken out and sent unless it is empty |
| WindowBuffers.Window.Run | flow/tumbling_window.go:77-118 | the windows are the nonempty runs of elements between firings: together they are the input in order, every firing finds what came before it sent, and every window ends just where a firing came or the input closed |
| Batches.Batch.BatchStream | flow/batch.go:80-119 | for any elements and ticks the batches are the chunks of the runs between ticks: together they are the input in order, each has from one to the maximum of elements, every tick finds what came before it sent, and a short batch ends just where a tick came or the input closed |
| Batches.BatchesHoldTheInput | flow/batch.go:80-119 | the batches together are the input in order |
| Batches.BufferIsShort | flow/batch.go:89-94 | between events the buffer is short of a full batch and completes the batches to the input so far |
| Batches.BatchSizes | flow/batch.go:87-105 | every batch has from one to the maximum of elements, and a short one ends just where a tick came or the input closed |
| Batches.NoTicksMeansChunks | flow/batch.go:80-105 | without ticks the batches are the chunks of the input and one nonempty remainder |

## Left out

- External connectors, the extension package, logging, contexts and retry functions: input and output only.
- The panics of constructors and of failed type assertions; what the constructors check is a subset type or a precondition.
- Go's scheduler fairness, real clocks, time zones and the behaviour of a ticker at `Reset`: timers are assumed only never to fire early.
- Overflow of the initial delay for window sizes near the int64 limit, and event times that `UnixNano` does not represent.
- SlidingTheorems.NoDataLoss: receipt of an element and the reading of its event time are one moment; lateness is measured then.
- Keys that are not equal to themselves, such as a floating-point NaN: a Go map finds no entry for one, so each of its elements would get a workflow of its own. Keys here are values with ordinary equality.
- Keyed over operators that depend on time: the theorems on `Routers` are for chains of deterministic stages.
- Distinct outlets for ZipWith and Merge, and one `Via` or `To` for each operator, are taken for granted: outlets are named by index or key.
- A merged flow's own PassThrough after the forwarders: it is a stage of the pipeline that follows, and `Chains.PassThroughAlone` says that it changes nothing.
- Exact real-time gaps of sessions: a reset signal can come late or be lost, so how long a gap lasts on the clock is not modelled; what a lost signal does is in `Windows.SessionIsTimedIff`.
- Flatten, which is FlatMap with the identity, and the accessors Via, To, In and Out.
