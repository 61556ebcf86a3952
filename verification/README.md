# Event pipeline: model and proofs

The repository builds one event pipeline twice, on threads and on async tasks. Wiki edits arrive as
server-sent events, are classified as Human or Bot, pass through a bounded work queue, and are counted
on a leaderboard; a fail-safe controller sheds Bots when the workers' jitter stays high. This project
models the scheduling, the overload control and the stream format, and proves what they keep over every
input, every run or every interleaving.

| file | what it is about |
|---|---|
| `tasks.dfy` | tasks, and the serving and eviction orders |
| `priority_queue.dfy` | the threaded queue: a heap kept in place in an array, with its overflow path |
| `lanes.dfy` | what the heap means: two first-in-first-out lanes sharing one capacity; who is protected from eviction |
| `lane_order.dfy`, `lane_waits.dfy` | each class is served in order, and how long a Human waits; the heap object driven through any operations |
| `ring.dfy` | the drop-oldest ring with the history of its pushes and deliveries |
| `async_pool.dfy`, `async_drain.dfy`, `async_wakes.dfy` | async workers around two rings and their wake-ups, as a step system; no stall, drain, cancellation, order of waking |
| `async_bias.dfy`, `async_work.dfy` | when a Bot passes over a queued Human; when a task waits although a worker sleeps |
| `histogram.dfy`, `failsafe.dfy` | the percentile, the rolling window and the controller |
| `failsafe_runs.dfy`, `failsafe_bounds.dfy` | the controller over whole sequential runs, and its exact bounds |
| `failsafe_races.dfy`, `failsafe_samples.dfy`, `failsafe_race_modes.dfy` | recorders racing the ticker, and what it takes to enter Degraded Mode then |
| `leaderboard.dfy`, `parser.dfy` | counting and ranking; judging one payload |
| `pipeline.dfy`, `pipeline_invariant.dfy`, `pipeline_shutdown.dfy` | the threaded pipeline with N workers as a step system; conservation, exact leaderboard, shutdown |
| `pipeline_runs.dfy` | runs of the pipeline that serve any given payloads |
| `pipeline_lanes.dfy` | the two lanes inside the pipeline: order of service over N workers, waiting, and what is shed |
| `pipeline_mode.dfy` | pipeline and fail-safe controller together: when Bots are shed |
| `sse.dfy`, `sse_lines.dfy` | the encoder and decoder of frames; what each kind of line does in any stream |
| `replay.dfy`, `ingest.dfy` | the looping replay; the limit and reconnect loop |
| `replay_client.dfy` | server and client together |
| `totals.dfy` | sums over the workers |

Two kinds of model appear. Objects that are updated in place are classes whose methods are proved against
a function or relation on their abstract state. Protocols are step systems: a state, the actions that
can happen in it, and executions of any length in any order; one action is what the code does without
anything interleaving, usually one lock section.

## Assumptions

- Atomics are sequentially consistent and lock sections are atomic.
- A wait with a timeout may end at any time, so the threaded proofs do not depend on any condition-variable signal.
- The async wake-up primitive (tokio's `Notify`) behaves as its documentation says: at most one stored permit; notifying wakes the
  longest waiting future or else stores the permit; a future that was notified and is dropped before it noticed passes the
  notification on. A task is polled again when it was woken.
- Enqueue times increase strictly where first-in-first-out order is claimed (there is one producer); conservation does not need it.
- A capacity of zero is excluded for the threaded queue only, where the first push would hit the `expect`
  at `crates/rts-threaded/src/scheduler.rs:119`.
- `FailSafeRuns` and `FailSafeBounds` take samples to be recorded between ticks. In the threaded run workers record on other threads
  (`crates/rts-threaded/src/pipeline.rs:84-104`); `FailSafeRaces`, `FailSafeRaceModes` and `PipelineMode` let every step of a recorder interleave
  with every step of a tick, and there two samples that race can do what otherwise takes three.
- The cancel flag, once set, is not cleared.
- Histograms keep exact values. Their upper bound is a parameter of at least 60 s, above which a sample is dropped.

## Where the code and its documentation differ

The model follows the code.

- `crates/rts-threaded/src/scheduler.rs:69-71` describes the evicted task as the one with the largest priority and enqueue time, which is the newest
  Bot. Lines 112-117 choose the oldest one, as the module's own introduction says. `DocumentedVictimIff` says when the two agree, and
  `DocumentedVictimStays` gives the runs in which they do not.
- `crates/rts-core/src/failsafe.rs:3-5` speaks of the p99 across five one-second buckets. The bucket that becomes current is emptied before the evaluation, so
  run sequentially a reading covers four completed epochs (`WindowIsLastFour`); only a sample that races a tick is counted five times.
- `crates/rts-async/src/scheduler.rs:3-5` says that the human channel is always polled first. It is, but a pop future that is parked does not look
  into its queue when polled, so a woken worker can take a Bot while a Human is queued (`BiasIsNotStrict`). It does so exactly when
  more Humans were pushed since its last look than were delivered or lost to overflow (`PassesHumanIff`); a single worker, exactly when its
  Human pop was notified after it was polled (`LoneWorkerPassesIff`).
- `crates/rts-core/src/channel/ring.rs:15-16` promises a bounded capacity. A ring of capacity zero grows with every push (`LawfulIffCapacity`, `ZeroCapacityGrows`).
- `crates/rts-threaded/src/ingest.rs:36-39` says that `run_sse` returns when the limit is reached, it is cancelled or an unrecoverable error occurs. It also returns
  `LimitReached` at a clean end of the stream (`RunSse`, `EmptyStream`); the limit was then met exactly when that much was offered.
- Human edits are not always safe from Bots: eviction looks at queued tasks only, and a Bot that arrives at a queue full of Humans displaces one (`BotDisplacesHuman`).

## Model

| member | source | states |
|---|---|---|
| `PriorityQueues.PriorityQueue.constructor` | `crates/rts-threaded/src/scheduler.rs:82-89` | a new queue is empty, in heap order and has counted no overflow |
| `PriorityQueues.PriorityQueue.Push` | `crates/rts-threaded/src/scheduler.rs:92-132` | below capacity the task is added; at capacity the contents become the old multiset, minus a task that is maximal in the eviction order (Bot before Human, then oldest), plus the new task, and only then does the overflow counter grow by one; the heap order holds again after the drain, `swap_remove` and rebuild |
| `PriorityQueues.PriorityQueue.EvictWorst` | `crates/rts-threaded/src/scheduler.rs:106-122` | exactly one task leaves, no task of the queue is worse than it, and the array is a heap again |
| `PriorityQueues.PriorityQueue.WorstIndex` | `crates/rts-threaded/src/scheduler.rs:109-119` | no element is worse than the one found, and among equal ones it is the last, as `max_by` picks it |
| `PriorityQueues.PriorityQueue.SwapRemove` | `crates/rts-threaded/src/scheduler.rs:121` | the element leaves and the last one takes its place; every other element stays where it is |
| `PriorityQueues.LastInto` | `crates/rts-threaded/src/scheduler.rs:121` | removing with `swap_remove` takes exactly one occurrence of that element out of the multiset |
| `PriorityQueues.PriorityQueue.Rebuild` | `crates/rts-threaded/src/scheduler.rs:122` | any arrangement of the elements becomes a heap of the same multiset |
| `PriorityQueues.PriorityQueue.SiftDown` | `crates/rts-threaded/src/scheduler.rs:122` | moving one element away from the root extends the heap order to it and keeps the multiset |
| `PriorityQueues.PriorityQueue.SiftUp` | `crates/rts-threaded/src/scheduler.rs:129` | moving the appended element towards the root restores the heap order and keeps the multiset |
| `PriorityQueues.PriorityQueue.Insert` | `crates/rts-threaded/src/scheduler.rs:129` | a heap with room stays a heap and gains exactly the new task |
| `PriorityQueues.PriorityQueue.PollOnce` | `crates/rts-threaded/src/scheduler.rs:139-150` | one lock section of the pop: the cancel flag wins over queued work, else a task leaves that no queued task precedes in the serving order, and only an empty queue leads to waiting |
| `PriorityQueues.RootServes` | `crates/rts-threaded/src/scheduler.rs:144` | the root of a heap is a task that no other task of the heap precedes |
| `PriorityQueues.SwapUp` | `crates/rts-threaded/src/scheduler.rs:129` | exchanging an element with its parent moves the only possible violation of the heap order one level up |
| `PriorityQueues.SwapDown` | `crates/rts-threaded/src/scheduler.rs:122` | exchanging an element with its first child moves the only possible violation of the heap order one level down |
| `Lanes.HeapIsTwoLanes` | `crates/rts-threaded/src/scheduler.rs:92-154` | for every sequence of pushes with increasing enqueue times and pops, at every point the heap holds exactly what two first-in-first-out lanes sharing the capacity hold, in order and within capacity |
| `Lanes.HeapRepliesAsLanes` | `crates/rts-threaded/src/scheduler.rs:92-154` | every push outcome and every task popped is the one the two lanes give: front of the Human lane, else front of the Bot lane |
| `Lanes.PushSimulates` | `crates/rts-threaded/src/scheduler.rs:92-132` | a result of a push is possible for the heap if and only if it is the result on the lanes |
| `Lanes.PollSimulates` | `crates/rts-threaded/src/scheduler.rs:138-150` | a result of a pop is possible for the heap if and only if it is the result on the lanes |
| `Lanes.FirstIsFront` | `crates/rts-threaded/src/scheduler.rs:49-55` | a task is first in the serving order if and only if it is the front of the Human lane, or of the Bot lane if there is no Human |
| `Lanes.WorstIsVictim` | `crates/rts-threaded/src/scheduler.rs:109-119` | a task is the eviction maximum if and only if it is the front of the Bot lane, or of the Human lane if there is no Bot |
| `Lanes.LanesInvariant` | `crates/rts-threaded/src/scheduler.rs:101-129` | the lanes stay separate, strictly ordered by enqueue time, and within the shared capacity |
| `Lanes.QueueConserves` | `crates/rts-threaded/src/scheduler.rs:92-154` | in every run and without any assumption on clocks, pushes are deliveries plus the overflow counter plus what is queued |
| `Lanes.HumanEvictedIff` | `crates/rts-threaded/src/scheduler.rs:102-119` | the victim is a Human if and only if the full queue holds only Humans |
| `Lanes.BurstKeepsHumans` | `crates/rts-threaded/src/scheduler.rs:101-129` | after any burst of pushes the Human lane is the newest part of the Humans pushed, at least min(h, capacity - 1) of them |
| `Lanes.HeapKeepsHumans` | `crates/rts-threaded/src/scheduler.rs:101-129` | so each of the newest capacity - 1 Humans of a burst is still in the heap |
| `Lanes.BotDisplacesHuman` | `crates/rts-threaded/src/scheduler.rs:101-129` | for any number of Humans pushed and then one Bot, the queue holds exactly the newest capacity - 1 of them, or all if fewer, and the Bot: the bound of capacity - 1 is exact |
| `Lanes.HeapLosesHuman` | `crates/rts-threaded/src/scheduler.rs:101-129` | in every run of the heap that pushes capacity Humans and then a Bot, the last push reports a drop and leaves all but the oldest Human |
| `Lanes.DocumentedVictimIff` | `crates/rts-threaded/src/scheduler.rs:69-71` | the code evicts the victim named by the type's documentation if and only if the lane it evicts from holds a single task |
| `Lanes.DocumentedVictimFails` | `crates/rts-threaded/src/scheduler.rs:109-119` | two queued Bots show the difference: the code evicts the older one |
| `Lanes.DocumentedVictimStays` | `crates/rts-threaded/src/scheduler.rs:69-71` | in every run of the heap that pushes one Bot more than its capacity of at least two, the documented victim is the newest Bot queued, and it is still queued afterwards |
| `LaneOrder.LanesServeInOrder` | `crates/rts-threaded/src/scheduler.rs:49-55` | whatever else happens, each lane is the end of the arrivals of its class, and what was served of it is an in-order part of the arrivals before that |
| `LaneOrder.HeapServesInOrder` | `crates/rts-threaded/src/scheduler.rs:92-154` | in every run with increasing enqueue times, the tasks of a class that the heap returns are an in-order subsequence of those pushed |
| `LaneWaits.HumanWaitsInTurn` | `crates/rts-threaded/src/scheduler.rs:92-154` | the Human at place i of its lane has left the queue after i + 1 more polls, whatever is pushed meanwhile |
| `LaneWaits.ServedUnlessEvicted` | `crates/rts-threaded/src/scheduler.rs:92-154` | over any stretch of a run in which no task of a class is evicted, the tasks of the class that leave are served, in the order of arrival |
| `LaneWaits.HumanIsServed` | `crates/rts-threaded/src/scheduler.rs:92-154` | if no Human is evicted meanwhile, the Human at place i is served as exactly the i-th Human from then on, within i + 1 more polls |
| `LaneWaits.GoneIsServedOrEvicted` | `crates/rts-threaded/src/scheduler.rs:92-154` | at every point of a run, the tasks of a class that have left their lane are those served plus those evicted |
| `LaneOrder.Perform` | `crates/rts-threaded/src/scheduler.rs:92-150` | any operation on the queue object is one step of the abstract heap and counts an overflow exactly if it evicts |
| `LaneOrder.Drive` | `crates/rts-threaded/src/scheduler.rs:81-154` | a new queue object driven through any operations gives a run of the abstract heap, with its overflow counter the number of evictions; with increasing enqueue times it answers each operation as the two lanes do |
| `Rings.DropOldestRing.constructor` | `crates/rts-core/src/channel/ring.rs:30-38` | a new ring is empty, whatever its capacity |
| `Rings.DropOldestRing.Push` | `crates/rts-core/src/channel/ring.rs:42-57` | the new state is that of the history extended by the push, and an overflow is counted and reported if and only if the ring was exactly full |
| `Rings.DropOldestRing.TryPop` | `crates/rts-core/src/channel/ring.rs:61-82` | one turn of the retry loops of both pops delivers the front, or nothing when empty, and the history laws persist |
| `Rings.AlwaysLawful` | `crates/rts-core/src/channel/ring.rs:42-82` | for any operations and capacity at least 1 the contents are the push history from number popped + overflow on, and at most capacity long |
| `Rings.LawfulIffCapacity` | `crates/rts-core/src/channel/ring.rs:44-51` | that law holds of all operation sequences if and only if the capacity is not zero |
| `Rings.ZeroCapacityGrows` | `crates/rts-core/src/channel/ring.rs:44-51` | a ring of capacity zero keeps all of n items pushed to it |
| `Rings.DeliveredInOrder` | `crates/rts-core/src/channel/ring.rs:42-82` | whatever the capacity, the deliveries are an in-order subsequence of the pushes before the current contents |
| `AsyncPool.Preserved` | `crates/rts-core/src/channel/ring.rs:42-70` | every push, poll and cancellation keeps the invariant: waiters are the parked workers, a stored permit excludes waiters, a non-empty lane has a permit or a worker that will look, and both rings obey their history laws |
| `AsyncPool.PushKeeps` | `crates/rts-core/src/channel/ring.rs:42-57` | a push with its notification leaves its lane covered and uncovers no other |
| `AsyncPool.TakeKeeps` | `crates/rts-async/src/scheduler.rs:39-44` | taking a task drops the losing pop future, and a notification it had not noticed is passed on |
| `AsyncPool.DropKeeps` | `crates/rts-async/src/scheduler.rs:39-44` | dropping a fresh, parked or notified pop future keeps the waiter lists exact |
| `AsyncPool.ExitKeeps` | `crates/rts-async/src/scheduler.rs:41` | leaving on cancellation drops both futures and keeps the invariant |
| `AsyncPool.ParkKeeps` | `crates/rts-core/src/channel/ring.rs:61-70` | a worker that looked in vain and found no permit can join the waiters without leaving a task unserved |
| `AsyncPool.PermitKeeps` | `crates/rts-core/src/channel/ring.rs:61-70` | consuming the stored permit turns into another look |
| `AsyncPool.NotifyKeepsCover` | `crates/rts-core/src/channel/ring.rs:53` | notifying one lane takes no cover from the other |
| `AsyncDrain.Reachable` | `crates/rts-async/src/scheduler.rs:30-44` | the invariant holds in every reachable state, for any number of workers, any pushes and any interleaving |
| `AsyncDrain.NeverStalls` | `crates/rts-async/src/scheduler.rs:38-44` | in every reachable state before cancellation, while a lane holds a task some worker is awake or being woken |
| `AsyncDrain.RestMeansEmpty` | `crates/rts-async/src/scheduler.rs:38-44` | a pool in which nobody can move has empty lanes, or was cancelled and everybody has left |
| `AsyncDrain.PollDescends` | `crates/rts-async/src/scheduler.rs:38-73` | every step of a worker takes a task, leaves the pool, or strictly lowers a measure of wakefulness: wake-ups cannot go round in circles |
| `AsyncDrain.DrainDelivers` | `crates/rts-async/src/scheduler.rs:38-44` | once pushes stop, every schedule of the workers comes to rest with empty lanes, every task pushed having been delivered or counted as overflow |
| `AsyncDrain.CancelEnds` | `crates/rts-async/src/scheduler.rs:38-44` | after cancellation every schedule ends with all workers gone |
| `AsyncDrain.CancelBudget` | `crates/rts-async/src/scheduler.rs:38-44` | however a run goes on after cancellation, with pushes or without, deliveries plus workers in the middle of a poll never grow, so all workers together take at most one task for each that was polling |
| `AsyncDrain.WorkerBudget` | `crates/rts-async/src/scheduler.rs:38-44` | however a run goes on after cancellation, each single worker takes at most one more task, and none if it was not in the middle of a poll |
| `AsyncWakes.PushWakesFirst` | `crates/rts-core/src/channel/ring.rs:53` | a push to a lane with waiters notifies and wakes the one that waits longest, and touches no other worker and no other waiter list |
| `AsyncWakes.WokenInTurn` | `crates/rts-core/src/channel/ring.rs:42-70` | in every run, a worker with i others waiting before it on a lane stops waiting there within i + 1 pushes to the lane, whatever else happens: later comers do not overtake it |
| `AsyncBias.LoAfterHi` | `crates/rts-async/src/scheduler.rs:39-44` | a worker that turns to the Bot lane has looked into the Human queue and found it empty, in the same select and since the last task it took |
| `AsyncBias.LooksBefore` | `crates/rts-core/src/channel/ring.rs:61-70` | a Human pop past its first look has a last look, after which it neither looked again nor took a task |
| `AsyncBias.LastLookUnique` | `crates/rts-core/src/channel/ring.rs:61-70` | there is only one such look |
| `AsyncBias.OnlyLookingEndsFresh` | `crates/rts-core/src/channel/ring.rs:62-68` | no step but a vain look of the worker itself takes its Human pop past its first look |
| `AsyncBias.PassedOverIsLater` | `crates/rts-async/src/scheduler.rs:39-44` | for any number of workers, every Human queued while a worker turns to the Bot lane was pushed after that worker last looked |
| `AsyncBias.PassesHumanIff` | `crates/rts-async/src/scheduler.rs:1-5` | for any number of workers, taking a Bot passes over a Human if and only if, since the worker last looked, more Humans were pushed than were delivered or lost to overflow |
| `AsyncBias.DeliversBotIff` | `crates/rts-async/src/scheduler.rs:39-44` | a step delivers a Bot if and only if it polls a worker whose Bot pop is about to look into a queue that is not empty |
| `AsyncBias.PassedOverIsCovered` | `crates/rts-core/src/channel/ring.rs:53-68` | before cancellation, a worker that could pass over a Human was notified of it, or another worker will look |
| `AsyncBias.LoneWorkerPassesIff` | `crates/rts-async/src/scheduler.rs:1-5` | in every run of a single worker before cancellation, when it turns to the Bot lane a Human is queued if and only if its Human pop was notified after its poll |
| `AsyncBias.BiasIsNotStrict` | `crates/rts-async/src/scheduler.rs:1-5` | a run that meets the condition of `PassesHumanIff`: a worker takes a Bot while a Human is queued |
| `AsyncWork.StarvesIff` | `crates/rts-core/src/channel/ring.rs:53-68` | a reachable state in which a task is queued, some worker sleeps and all others sleep or are busy exists if and only if there are at least two workers and the capacity is not one |
| `AsyncWork.AlwaysAttended` | `crates/rts-core/src/channel/ring.rs:42-70` | with rings of one place, in every reachable state before cancellation a queued task has a permit or a worker that was notified or is about to look, busy ones not counted |
| `AsyncWork.SecondSleeps` | `crates/rts-core/src/channel/ring.rs:53-68` | a run for any number of workers from two on: two pushes leave one permit, one worker takes a task, and another goes to sleep over the second |
| `Histograms.P99ExceedsIff` | `crates/rts-core/src/failsafe.rs:75-85` | the nearest-rank p99 exceeds t if and only if more than floor(n / 100) of the n merged samples do |
| `Histograms.P99BelowIff` | `crates/rts-core/src/failsafe.rs:75-85` | the reading is below t if and only if at most floor(n / 100) of the n merged samples are t or more |
| `Histograms.CountAboveAdds` | `crates/rts-core/src/failsafe.rs:84` | the count of samples above t is zero for the empty histogram and grows by one with each sample above t, and with no other |
| `Histograms.P99` | `crates/rts-core/src/failsafe.rs:81-84` | zero for an empty window, else the least value that 99 in 100 samples do not exceed |
| `Histograms.P99Unique` | `crates/rts-core/src/failsafe.rs:84` | there is only one such value |
| `Histograms.ValueAtP99` | `crates/rts-core/src/failsafe.rs:84` | counting up from the smallest value finds it |
| `FailSafe.RollingHistogram.constructor` | `crates/rts-core/src/failsafe.rs:46-59` | five empty buckets, the first one current |
| `FailSafe.RollingHistogram.Record` | `crates/rts-core/src/failsafe.rs:62-65` | only the current bucket gains the sample, at least 1, and a sample above the bound leaves no trace |
| `FailSafe.RollingHistogram.Advance` | `crates/rts-core/src/failsafe.rs:68-72` | the next bucket in the ring becomes current and only it is emptied |
| `FailSafe.RollingHistogram.P99Ns` | `crates/rts-core/src/failsafe.rs:75-85` | the merge loop reads the p99 of all five buckets together, zero when they are empty |
| `FailSafe.FailSafeController.constructor` | `crates/rts-core/src/failsafe.rs:99-106` | normal mode, no dwell, an empty window |
| `FailSafe.FailSafeController.RecordJitter` | `crates/rts-core/src/failsafe.rs:110-113` | a duration of 1 ns up to the bound adds exactly that number to the current bucket, zero adds 1, one above the bound leaves no trace, and the mode is untouched |
| `FailSafe.FailSafeController.OneTick` | `crates/rts-core/src/failsafe.rs:128-163` | the new state is one rotation followed by one step of the hysteresis automaton on the reading (`GoesOnIff` and `GoesOffIff` say with numbers what that does), and the dwell counter stays below 10 |
| `FailSafeRuns.WindowIsLastFour` | `crates/rts-core/src/failsafe.rs:62-85` | run sequentially, each evaluation covers exactly the samples of the last four completed epochs |
| `FailSafeRuns.ModeFromReadings` | `crates/rts-core/src/failsafe.rs:128-163` | over whole runs the mode is a function of the p99 readings alone |
| `FailSafeRuns.DwellCounts` | `crates/rts-core/src/failsafe.rs:134-162` | the dwell counter is the exact length of the unbroken opposition to the current mode, and below 10 |
| `FailSafeRuns.FlipIff` | `crates/rts-core/src/failsafe.rs:134-162` | the mode flips at a tick if and only if ten readings in a row, all since the previous flip, oppose it |
| `FailSafeRuns.FlipsApart` | `crates/rts-core/src/failsafe.rs:134-162` | any two flips are at least ten ticks apart |
| `FailSafeRuns.GoesOnIff` | `crates/rts-core/src/failsafe.rs:134-148` | the mode turns on at a tick if and only if it was off for ten ticks in a row whose readings exceed 1_500_000 ns |
| `FailSafeRuns.GoesOffIff` | `crates/rts-core/src/failsafe.rs:134-148` | the mode turns off at a tick if and only if it was on for ten ticks in a row whose readings are below 800_000 ns |
| `FailSafeRuns.BandKeepsMode` | `crates/rts-core/src/failsafe.rs:134-162` | a reading from 800_000 to 1_500_000 ns leaves the mode as it is |
| `FailSafeRuns.TenLowAreEnough` | `crates/rts-core/src/failsafe.rs:134-148` | whatever came before, ten readings in a row below 800_000 ns leave the mode off, and it stays off while they continue |
| `FailSafeRuns.RecordedCounts` | `crates/rts-core/src/failsafe.rs:110-113` | recording durations between 1 ns and the bound keeps each of them exactly as often as it was given |
| `FailSafeBounds.EntersIff` | `crates/rts-core/src/failsafe.rs:128-162` | when samples are recorded between ticks only, a tick enters Degraded Mode if and only if the mode was normal for ten ticks and in each of their four-epoch windows more than one percent of the samples exceeded 1.5 ms |
| `FailSafeBounds.LeavesIff` | `crates/rts-core/src/failsafe.rs:128-162` | when samples are recorded between ticks only, a tick leaves Degraded Mode if and only if the mode was on for ten ticks and in each of their four-epoch windows at most one percent of the samples were 800_000 ns or more |
| `FailSafeBounds.QuietStaysNormal` | `crates/rts-core/src/failsafe.rs:110-162` | if no duration ever exceeds 1_500_000 ns the mode is normal after any number of epochs |
| `FailSafeBounds.CalmRecovers` | `crates/rts-core/src/failsafe.rs:110-162` | whatever was recorded before, if all durations of the epochs from some point on are below 800_000 ns, the mode is normal from the thirteenth of them on |
| `FailSafeBounds.EnteringTakesThreeEpochs` | `crates/rts-core/src/failsafe.rs:128-162` | when samples are recorded between ticks only, entering needs samples above 1.5 ms in three different epochs of the last thirteen |
| `FailSafeBounds.ThreeEpochsSuffice` | `crates/rts-core/src/failsafe.rs:128-162` | three single samples in thirteen epochs do trip it, so that bound is exact for such runs |
| `FailSafeBounds.RecoversInFourteen` | `crates/rts-core/src/failsafe.rs:128-162` | from any state with a sound window and dwell counter, once recording stops the mode is normal after 14 ticks and stays so |
| `FailSafeBounds.FourteenNeeded` | `crates/rts-core/src/failsafe.rs:128-162` | some reachable state is still degraded after 13 idle ticks |
| `FailSafeBounds.ReachableIsSound` | `crates/rts-core/src/failsafe.rs:128-163` | every reachable state has five buckets, an index among them and a dwell counter below 10 |
| `FailSafeRaces.CountedWithinFive` | `crates/rts-core/src/failsafe.rs:62-85` | under every interleaving of recorders and the ticker, the evaluations that count a sample lie within five in a row |
| `FailSafeRaces.CountedIff` | `crates/rts-core/src/failsafe.rs:62-85` | under every interleaving, of the samples written before a tick its evaluation counts exactly those whose bucket was last emptied less than five ticks ago: none is missed and none is kept too long |
| `FailSafeRaces.FiveIsExact` | `crates/rts-core/src/failsafe.rs:62-85` | some interleaving counts one sample in five evaluations |
| `FailSafeRaces.Preserved` | `crates/rts-core/src/failsafe.rs:62-85` | each index read, bucket write, rotation and bucket merge keeps every sample within the five ticks after its bucket was emptied |
| `FailSafeRaceModes.RestedWithinFour` | `crates/rts-core/src/failsafe.rs:62-85` | under every interleaving, the evaluations that count a sample written between ticks lie within four in a row |
| `FailSafeRaceModes.EnteringTakesSamples` | `crates/rts-core/src/failsafe.rs:110-162` | under every interleaving of recorders and the ticker, entering Degraded Mode takes three different samples above 1.5 ms, or two that were both written between the two halves of a tick |
| `FailSafeRaceModes.TwoRacesSuffice` | `crates/rts-core/src/failsafe.rs:110-162` | two samples written in the middle of ticks 1 and 6 do trip it at tick 10 |
| `FailSafeRaceModes.ThreeRestedSuffice` | `crates/rts-core/src/failsafe.rs:110-162` | three samples written between ticks do trip it at tick 13 |
| `FailSafeRaceModes.AlwaysRaceInv` | `crates/rts-core/src/failsafe.rs:110-162` | in every reachable state of the race the mode is that of the readings, each reading is the p99 of exactly the samples its evaluation counted, and no sample written between ticks was counted by the tick that emptied its bucket |
| `FailSafeRaceModes.HotReadingIff` | `crates/rts-core/src/failsafe.rs:75-85` | under every interleaving of recorders and the ticker, an evaluation reads above 1_500_000 ns if and only if, of the samples it counted that the histogram can hold, more than one in a hundred are above that |
| `FailSafeSamples.KeptHotIff` | `crates/rts-core/src/failsafe.rs:62-85` | of any set of recorded samples, the p99 is above 1_500_000 ns if and only if more than one in a hundred of those within the bound are |
| `Leaderboards.Leaderboard.constructor` | `crates/rts-threaded/src/leaderboard.rs:26-31` | nothing is counted |
| `Leaderboards.Leaderboard.Count` | `crates/rts-threaded/src/leaderboard.rs:38` | the map goes on holding exactly the wikis seen, each with the number of its updates |
| `Leaderboards.Leaderboard.Rank` | `crates/rts-threaded/src/leaderboard.rs:41-43` | each wiki seen is listed once with exactly its count, in descending order of counts |
| `Leaderboards.Leaderboard.Handle` | `crates/rts-threaded/src/leaderboard.rs:36-46` | an update is counted and answered with nothing, a snapshot is answered with a ranking of everything counted before it |
| `Leaderboards.Leaderboard.Run` | `crates/rts-threaded/src/leaderboard.rs:34-48` | every snapshot request in the channel is answered, in order, with a ranking of exactly the updates sent before it |
| `Leaderboards.SortingRanks` | `crates/rts-threaded/src/leaderboard.rs:41-43` | a listing of the map in any order, sorted in any way that keeps its entries, is a ranking |
| `Leaderboards.SortedDescends` | `crates/rts-threaded/src/leaderboard.rs:43` | sorting by count yields descending counts |
| `Parser.Dispatch` | `crates/rts-threaded/src/parser.rs:21-64` | a payload that does not parse, and a Bot in Degraded Mode, leave the queue alone; everything else is pushed with its priority, and an overflow is reported if and only if one happened |
| `Parser.ShedOnlyDegradedBots` | `crates/rts-threaded/src/parser.rs:21-54` | a payload is rejected if and only if it does not parse and shed if and only if it is a Bot in Degraded Mode; every other one is enqueued as it is, with the priority of its author and the clock reading |
| `PipelineInvariant.Preserved` | `crates/rts-threaded/src/pipeline.rs:94-129` | every step of the main thread, of a worker and of the leaderboard keeps the lock, ordering, conservation and channel invariants |
| `PipelineInvariant.WorkPreserves` | `crates/rts-threaded/src/scheduler.rs:138-224` | every step of a worker does: a task it takes moves from the queue to its hand, then to the completed, and its update goes into the channel once |
| `PipelineInvariant.MainPreserves` | `crates/rts-threaded/src/pipeline.rs:106-129` | every step of the main thread does, from a push with eviction to the snapshot request |
| `PipelineInvariant.BoardPreserves` | `crates/rts-threaded/src/leaderboard.rs:34-48` | every step of the leaderboard does |
| `PipelineShutdown.PipelineConserves` | `crates/rts-threaded/src/parser.rs:27-63` | in every reachable state payloads received = in the main thread's hands + rejected + shed + evicted + queued + in a worker's hands + completed, and the enqueued tasks are, as a multiset, exactly those in the last four places |
| `PipelineShutdown.FinalLeaderboardIsExact` | `crates/rts-threaded/src/pipeline.rs:116-129` | under every interleaving the snapshot of a run that ends ranks exactly the tasks ever popped, all of them completed |
| `PipelineShutdown.AtMostOneMorePop` | `crates/rts-threaded/src/scheduler.rs:138-150` | once the cancel flag is set, at most one more task leaves the queue, over all workers together |
| `PipelineShutdown.OneArmed` | `crates/rts-threaded/src/scheduler.rs:139-144` | the lock lets at most one worker be between its look at the flag and its pop |
| `PipelineShutdown.LockGuardsQueue` | `crates/rts-threaded/src/scheduler.rs:92-150` | in every reachable state at most one worker is inside the lock, and while one is, no step of any other thread changes the queue |
| `PipelineShutdown.ShutdownDescends` | `crates/rts-threaded/src/pipeline.rs:116-129` | once the flag is set every possible step lowers a ranking function |
| `PipelineShutdown.ShutdownMoves` | `crates/rts-threaded/src/pipeline.rs:116-129` | once the flag is set and until the main thread is done, some step is possible, whether or not a wake-up was missed |
| `PipelineShutdown.ShutdownEnds` | `crates/rts-threaded/src/pipeline.rs:116-129` | so every schedule of a shutdown ends, and ends with the exact leaderboard |
| `PipelineRuns.EveryStreamCanBeServed` | `crates/rts-threaded/src/pipeline.rs:94-112` | for any payloads, any number of workers from one on and either mode, some run takes them all in, serves exactly the tasks they become in their order, completes and counts each of them, and evicts nothing; from there the shutdown theorems apply |
| `PipelineLanes.QueueIsTwoLanes` | `crates/rts-threaded/src/scheduler.rs:92-154` | with a clock that increases from task to task, in every reachable state of N workers and one producer the shared queue is two lanes in order and within capacity, its overflow count is their evictions, and every push and pop was answered as they answer |
| `PipelineLanes.WorkersTakeInOrder` | `crates/rts-threaded/src/scheduler.rs:197-205` | however many workers there are, the tasks of a class they took are an in-order subsequence of those enqueued |
| `PipelineLanes.HumanLeavesInTurn` | `crates/rts-threaded/src/scheduler.rs:92-154` | however many workers there are and whatever arrives meanwhile, the Human at place i of the queue has left it once the workers have taken i + 1 more tasks |
| `PipelineLanes.HumansAreNeverShed` | `crates/rts-threaded/src/parser.rs:41-54` | in every run and whatever the mode, the Humans that parsed are, in order, those enqueued and the one in the main thread's hands; what is shed is exactly the Bots heard in Degraded Mode |
| `PipelineMode.Projects` | `crates/rts-threaded/src/pipeline.rs:84-112` | pipeline and controller running together each run as they do alone, so what holds of all their runs holds here |
| `PipelineMode.ShedAfterEntering` | `crates/rts-threaded/src/parser.rs:43-46` | no Bot is shed before a tick at which the readings turned Degraded Mode on |
| `PipelineMode.ShedTakesSamples` | `crates/rts-threaded/src/parser.rs:43-46` | under every interleaving of workers, ticker and main thread, by the time a Bot was shed three samples above 1.5 ms were recorded, or two that each raced a tick |
| `Sse.TruncationIsSafe` | `crates/rts-threaded/src/ingest.rs:116-142` | cutting any stream anywhere, with either kind of ending, delivers a prefix of the payloads of the whole |
| `Sse.EndingDeliversNothing` | `crates/rts-threaded/src/ingest.rs:118-142` | an unfinished last line completes no event |
| `Sse.DeliveredAfterFrames` | `crates/rts-threaded/src/ingest.rs:116-142` | what follows a whole number of frames is decoded as if it stood alone, whatever the payloads |
| `Sse.FrameOfLine` | `crates/rts-threaded/src/ingest.rs:126-139` | a one-line payload comes back without its leading spaces and one final carriage return, and otherwise unchanged |
| `Sse.LinesNeverRoundTrip` | `crates/rts-replay/src/play.rs:229-233` | a payload that contains a line feed never comes back |
| `Sse.FrameRoundTripsIff` | `crates/rts-replay/src/play.rs:229-233` | a frame gives back its payload if and only if that has no line feed, no leading space and no final carriage return |
| `Sse.EncodeRoundTrips` | `crates/rts-replay/src/play.rs:229-233` | any sequence of such payloads comes back |
| `Sse.CutFrameIsDropped` | `crates/rts-threaded/src/ingest.rs:116-142` | a stream of such frames cut inside one delivers exactly the payloads of the frames before it |
| `SseLines.OtherLineIsIgnored` | `crates/rts-threaded/src/ingest.rs:126-140` | a finished line anywhere in a stream that is not empty and does not begin with `data:` changes nothing of what is delivered, before or after it |
| `SseLines.BlankLineIsIgnored` | `crates/rts-threaded/src/ingest.rs:126-133` | an empty line between events changes nothing |
| `SseLines.CarriageReturnIsIgnored` | `crates/rts-threaded/src/ingest.rs:118-125` | a carriage return before a line feed changes nothing |
| `SseLines.OneCarriageReturnGoes` | `crates/rts-threaded/src/ingest.rs:118-139` | of two carriage returns before the line feed of a data line, the first belongs to the payload |
| `SseLines.EventDelivers` | `crates/rts-threaded/src/ingest.rs:126-139` | any number of data lines, each with any number of spaces behind the colon, and an empty line deliver one payload, their data joined |
| `SseLines.PayloadHasLines` | `crates/rts-threaded/src/ingest.rs:131` | splitting such a payload into lines gives back the data of each line, in order |
| `SseLines.TwoDataLines` | `crates/rts-threaded/src/ingest.rs:126-139` | two data lines of texts a and b deliver a, a line feed and b |
| `SseLines.SpacesAreTrimmed` | `crates/rts-threaded/src/ingest.rs:135-137` | all leading spaces of the data go, and nothing else |
| `SseLines.ClosedTextsAreApart` | `crates/rts-threaded/src/ingest.rs:116-142` | what follows a text of whole events is decoded as if it stood alone, whoever wrote either |
| `SseLines.FrameText` | `crates/rts-replay/src/play.rs:229-233` | a frame is the line `event: message`, the line `data: ` with the payload, and an empty line |
| `Replay.ReplayStream.constructor` | `crates/rts-replay/src/play.rs:187-193` | the loop starts at the first event and its time stamp |
| `Replay.ReplayStream.Next` | `crates/rts-replay/src/play.rs:195-236` | chunk number k is the frame of event k mod n whose offset is the time from the first event to it, or zero if its stamp is earlier, for ever, and all chunks so far are the encoding of the payloads at i mod n; an empty fixture ends the stream at once |
| `Replay.ReplayRoundTripsIff` | `crates/rts-replay/src/play.rs:195-236` | for every k the first k chunks decode to the payloads at i mod n, if and only if every payload of the fixture is clean |
| `Replay.CutReplay` | `crates/rts-replay/src/play.rs:195-236` | a client cut off inside chunk k has received exactly the k payloads before it |
| `Ingest.ReadStream` | `crates/rts-threaded/src/ingest.rs:87-144` | one connection sinks a prefix of its payloads that the limit admits, all of them unless cancelled, and returns cleanly, if not cancelled, if and only if the stream ended cleanly or the count is full; if the flag is set before line number i, it sinks exactly what the lines before that deliver within the limit, and nothing if it was set before the connection |
| `Ingest.StopsAtOnce` | `crates/rts-threaded/src/ingest.rs:119-121` | a connection whose first look finds the flag set sinks nothing |
| `Ingest.Turn` | `crates/rts-threaded/src/ingest.rs:55-83` | one turn of the reconnect loop either returns as promised, or made an attempt that did not end cleanly and leaves the loop where the next one finds it |
| `Ingest.RunSse` | `crates/rts-threaded/src/ingest.rs:41-84` | over any streams, endings and reconnects the sink is called at most limit times in total, with a prefix of the payloads offered; unless cancelled, with exactly what the limit admits, `LimitReached` means a full count or a clean end of stream, and the count is full if and only if at least limit payloads were offered; a flag set from the start gives `Cancelled` and sinks nothing, one set within the first connection stops it there; pause number i is 200 ms times 2^i, at most 30 s, and there is one for each failed attempt |
| `Ingest.EmptyStream` | `crates/rts-threaded/src/ingest.rs:60-64` | one clean empty stream: `LimitReached` is returned with a limit that was not met |
| `Ingest.LoopGoesOn` | `crates/rts-threaded/src/ingest.rs:59-83` | an attempt adds only payloads still to come; a clean end or a full count is final, and a failed attempt leaves the loop where the payloads of the remaining attempts are still to come |
| `Ingest.AdmittedParts` | `crates/rts-threaded/src/ingest.rs:55-57` | limiting a stream in parts, carrying the count across reconnects, is limiting the whole |
| `ReplayClient.LimitedClient` | `crates/rts-threaded/src/ingest.rs:51-84` | a client with a limit takes exactly the payloads at i mod n for i below the limit from a server that loops over a clean fixture, however often it was refused first, wherever the stream is cut behind the frames it needs, and whatever follows |
| `ReplayClient.Fetch` | `crates/rts-threaded/src/ingest.rs:116-142` | server object and client loop together: after k chunks and a broken connection the client has the payloads at i mod n for i below k and the limit, and reports `LimitReached` if and only if the limit is at most k |

## Left out

- HTTP clients and servers, tracing, command line, files, plots, the watchdog, metrics and benches: they move or display data, and no property here depends on them.
- The async ingest client and the async parser: framing is delegated to a crate, and pushes are free actions of the pool.
- The async leaderboard: its workers are not joined and `try_send` may drop an update, so no exactness holds; its counting loop is the threaded one.
- JSON parsing, and touching the watchdog after it: what the parser made of a payload is a parameter of `Judge` and `Dispatch`.
- The three-figure bucketing of the histogram crate and the exact value of its upper bound: values are exact and the bound is the parameter `highest`.
- Real time, the random factor on each back-off pause and the sleeping itself, and the scaling and sleeping of the replay in floating point: the offset before scaling is modelled, the sleep is not.
- `Rate::parse` and `load_fixture`: they supply the rate, which only delays chunks, and the fixture, of which any contents are allowed here.
- Text as UTF-8 bytes: text is a sequence of characters, and a stream cut inside a character is one with an error ending.
- The endless retry loops of the blocking pops: each lock section is one step (`PollOnce`, `TryPop`), and the waiting between them belongs to the step systems.
- Growth and allocation of the standard containers: the heap is an array of the given capacity, the ring's deque a sequence.
- 64-bit wrap-around of the counters, and relaxed memory effects.
- Polls of an async task that nothing woke: the runtime may make them, and the pool has no step for them.
- Ingest errors that abort a run: `run_sse` reconnects on every error, so the early return at `crates/rts-threaded/src/pipeline.rs:112` is never taken.
- Dropped updates in the threaded run: the leaderboard's channel is unbounded, so `try_send` always succeeds while the leaderboard runs.
- Panics of a thread: a join is modelled as waiting for a worker that left its loop.
- RecoversInFourteen: recording is taken to have stopped altogether; a recorder delayed between its two steps is covered by `CountedWithinFive` only.
