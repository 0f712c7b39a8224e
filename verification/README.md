# A verified model of exe's concurrency core

This project models the stateful parts of exe, a C++ library of fibers, futures, runtimes and
lock-free building blocks, and proves what they promise. Concurrent code is a transition system: any
number of threads interleave, and every atomic load, store, exchange, read-modify-write or CAS, every
section under a spin lock or mutex, and every futex wait or wake is one step. All atomics of the
source use the default order `seq_cst` (section 31.4 of ISO/IEC 14882:2020), so interleaving is
faithful. Weak CASes and waits may fail or end spuriously. Results are stated over every run of any
length with any number of threads. Code that runs alone, or under a lock, is also given as classes
with the source's fields and loops, proved against specification functions.

## What is modelled

- **Reclamation** (`HazardMachine`, `HazardSafety`, `HazardAnswers`, `HazardCalls`, `HazardProgress`,
  `HazardGc`): `AtomicSharedPtr` over hazard pointers. Each call takes effect for its caller once, inside the
  call, and ends if it is left alone. Addresses are reused once an object is destroyed. The invariant says how far each scan
  has come: an object under scan can be protected only by mutators that the scan has still to visit,
  so a scan that has passed a slot stays sound, although mutators register while it runs.
- **Work-stealing ring** (`RingMachine`, `RingSafety`, `RingCalls`, `WorkStealingQueue`): one pusher, any
  number of threads that pop and grab. Every call linearizes to one on a bounded FIFO queue of any capacity,
  with the caller's own task or room; how many tasks a `Grab` takes was right when it loaded `tail_`.
- **Scheduler** (`SchedulerMachine`, `SchedulerConservation`, `SchedulerParking`, `SchedulerStop`,
  `SchedulerFairness`, `SchedulerOrder`, `SchedulerPlacement`, and the objects in `SchedulerObjects` and
  `SchedulerWorker`): conservation of tasks, the parking protocol, stopping, the order of all queues,
  bounded bypass and bounded waiting, and that the small steps of a worker place tasks where its
  operations do.
- **Futures** (`FutureTree`, `FutureSteps`, `FutureSafety`, `FutureSemantics`, `FutureAttained`,
  `FutureContract`, `FutureBothOk`): trees of combinators, the answers that a tree denotes, and a machine that
  runs the tree under any scheduler. What each combinator makes of its input is also stated by cases, apart
  from the machine, and every future in every schedule does exactly that.
  One thread puts a tree together, bottom-up and left input first, and runs the callbacks that it
  finds due on the way, with what an inline runtime does in them. So the denotation has two parts: all
  values that a future may give, and those that it may give late, after its consumer has come. The
  values delivered by complete schedules are exactly those denoted. `n` bounds how deep user functions
  may nest the futures they return; `Fits(e, n)` says that evaluation ends.
- **Timers** (`LeftistHeap`, `Sandbox`, `TimerThread`, `TimerBlockingQueues`): the destructive `Merge`
  on linked nodes, the virtual-time runtime built on it, and the timer thread of runtime v1.
- **Channels** (`CircularBuffers`, `Channels`, `ChannelRuns`): both channels behave like one abstract channel
  of capacity c, the rendezvous channel being c = 0; whole runs fix who gets which value and whom each
  operation wakes.
- **Mutexes** (`ThreadMutex`, `FiberMutex`): mutual exclusion, and no sleeper left behind.
- `Runs`, `Counting`, `Remainders` and `Common` are shared: runs and invariants, occurrences in a
  sequence, uniqueness of remainders, and what several modules declare.

## What does not hold

- `BothOk` with two failing inputs reaches `Set` twice on one promise. `FutureBothOk.SetAtMostOnceIff`
  gives the exact condition and `FutureBothOk.SecondSet` the schedule.
- The sandbox clock's assertion fails exactly if some timer is overdue, which one `Set` brings about if
  and only if its delay is negative (`Sandbox.TimerQueue.Set`, `Sandbox.NegativeDelayFails`). Timers
  come out of order after a change of the clock if and only if one handed over before lies after the
  new time (`Sandbox.FireAfter`); right after a timer has fired that means a negative delta
  (`Sandbox.NegativeDeltaReorders`). Without both neither happens (`Sandbox.Runtime.Drive`).
- `approximate_size_` is not the length of the coordinator's list. It is ahead by one for each wake under
  way and for each worker that `Unlink` has ever removed, so it is exact if and only if there is none of
  either (`SchedulerParking.SizeNeverLow`), and in some run of a single worker it is off by any number
  (`SchedulerParking.SizeDrifts`). What the parking argument needs is that it is never too small.
- `First` does not give every value of its inputs in some schedule: of two ready futures the left one
  always decides (`FutureAttained.ReadyDecides`). A value that only the right input has can be delivered
  if and only if the left input may come late (`FutureAttained.RightDecidesIff`), which is never so if
  everything in it runs inline (`FutureAttained.InlineIsNeverLate`).
- `FirstOk` does not give every error of its inputs either. An error that only the left input has is given
  in some schedule if and only if it may come late and the right input may fail; one that only the right
  input has, if and only if the left one may fail (`FutureAttained.LeftErrorIff`, `RightErrorIff`). So of
  two ready errors it always gives the right one (`FutureAttained.LastErrorDecides`).
- A `Grab` may come back short or empty from a ring that is not: for every capacity and buffer there is a
  run in which the owner pushes between a thief's load of `tail_` and its CAS (`RingSafety.StaleGrab`). The
  answer is right at the CAS if and only if the buffer is full or `tail_` has not moved
  (`RingCalls.GrabExactIff`); it was always right at the load (`RingCalls.GrabAnswer`).

## Model

| member | source | states |
|---|---|---|
| HazardSafety.NoUseAfterFree | source/gc/atomic_shared_ptr.hpp:153-232 | in every reachable state, every object that some thread may touch next (`AddRef`, `TryAddRef`, `Unlink`, `Destroy`) is not destroyed |
| HazardSafety.DestroyIsSafe | source/gc/hazard/mutator.cpp:6-18 | what a `Gc` destroys has counter 0, is in no cell, is referenced by no thread, guarded by no thread (one that passed the re-load of `Protect` and has not reset its slot since, in a failed round too), and is to be destroyed by nobody else |
| HazardSafety.StepScansSound | source/gc/hazard/collector.hpp:17-36 | a step of any thread keeps every scan sound: who guards the scanned object is a mutator whose slot the scan has still to read |
| HazardSafety.StepGuardedAlive | source/gc/hazard/owner.hpp:20-31 | a step of any thread keeps alive what passed the re-load in `Protect`, until the slot is reset: through `TryAddRef`, the CAS on the cell, and the end of a failed round |
| HazardSafety.StepPublished | source/gc/hazard/record.hpp:10-20 | a thread that guards an object has it in its own slot, and other threads' steps leave the slot alone |
| HazardSafety.StepRegistry | source/gc/hazard/hazard.cpp:40-53 | CAS registration keeps all mutators chained from the head, each owned by one thread, also when several threads register at once |
| HazardSafety.CounterExact | source/gc/atomic_shared_ptr.hpp:34-52 | the counter is the number of cells holding the object plus the `SharedPtr`s and references in flight |
| HazardSafety.StepAccounted | source/gc/atomic_shared_ptr.hpp:172-232 | every step of `Store`, `Load`, `CompareExchangeWeak` and the `SharedPtr` operations keeps the counter exact and retires an object when it reaches 0 |
| HazardSafety.RetiredOnce | source/gc/atomic_shared_ptr.hpp:34-38 | from counter 0 to destruction exactly one thread has the duty to destroy the object, once; before and after nobody has |
| HazardSafety.ZeroIsFinal | source/gc/atomic_shared_ptr.hpp:44-52 | a counter that is 0 stays 0 until the object is destroyed: `TryAddRef` revives nothing |
| HazardSafety.NothingLeaks | source/gc/hazard/mutator.hpp:25-31 | when all references are dropped, memory holds exactly the objects in retired lists, each in one list once |
| HazardAnswers.AnswerWasInCell | source/gc/atomic_shared_ptr.hpp:190-232 | in every run, what `Load` or `CompareExchangeWeak` returns the cell held at a moment inside the call, and the object has been alive since; `CompareExchangeWeak` answers true exactly if that is the expected pointer, then finds and replaces it in its last step, and changes no cell otherwise |
| HazardAnswers.TriedWasInCell | source/gc/hazard/owner.hpp:20-31 | in every run, a pointer whose counter `TryAddRef` is about to read or raise was in the cell at the re-load of `Protect` in the same job, and its object has been alive at every moment since |
| HazardCalls.StoreStoresOnce | source/gc/atomic_shared_ptr.hpp:172-184 | in every run, a `Store(c, n)` that is over has done one exchange, inside the call, after which cell c holds n and all other memory is as before; it then drops exactly the reference to what the cell held just before; no other step of the call changes a cell, and the call takes exactly the caller's reference to n |
| HazardCalls.CallAnswersOnce | source/gc/atomic_shared_ptr.hpp:153-232 | in every run, a `Load` or `CompareExchangeWeak` that is over has handed its caller one reference, once, to what its cell held at a moment inside the call, the object being alive from then on; `CompareExchangeWeak` answers true, and then has written `desired` once, exactly if that is the expected pointer, which is in the cell at the write |
| HazardCalls.OnlyCallsWrite | source/gc/atomic_shared_ptr.hpp:172-232 | over all runs a cell changes only in the one write of a `Store`, or of a `CompareExchangeWeak` that finds what it expects, with the arguments of that very call |
| HazardCalls.KeptWasSeen | source/gc/hazard/mutator.cpp:6-18 | in every run, a `Gc` keeps only objects that it has seen in a slot of a registered mutator during this very collection |
| HazardProgress.LeftAloneEnds | source/gc/atomic_shared_ptr.hpp:153-232 | in every reachable state, each step of a busy thread that nobody interferes with and whose CASes do not fail spuriously brings it closer to the end of its call, registration, drops and collections included |
| HazardSafety.GiveKeepsInv | source/gc/atomic_shared_ptr.hpp:85-98 | moving a `SharedPtr` from one thread to another keeps the whole invariant |
| HazardGc.SelectConserves | source/gc/hazard/mutator.cpp:6-18 | each occurrence in the retired list is either kept or destroyed |
| HazardGc.GarbageBound | source/gc/hazard/limits.hpp:7 | the distinct objects kept are at most as many as the hazard slots, by the pigeonhole principle |
| HazardGc.Collector.GetMutator | source/gc/hazard/hazard.cpp:40-53 | a thread's mutator is reused; a first call puts one fresh mutator with empty slots in front of the list, however often the weak CAS fails |
| HazardGc.Collector.IsProtected | source/gc/hazard/collector.hpp:17-36 | the nested scan answers true exactly if some slot of some registered mutator names the object |
| HazardGc.Collector.Gc | source/gc/hazard/mutator.cpp:6-18 | exactly the retired objects that no slot names are destroyed, the others stay in order, and at most slots-per-mutator times mutators distinct ones stay |
| HazardGc.Collector.Retire | source/gc/hazard/mutator.hpp:25-31 | the same, for the retired list with the new object at its end |
| RingSafety.MaskIsRemainder | source/runtime/multi_thread/v2/ws/work_stealing_queue.hpp:77-83 | whenever `Capacity & (Capacity - 1)` is 0, masking with `Capacity - 1` is the remainder |
| RingSafety.ModIsRemainder | source/runtime/multi_thread/v2/ws/work_stealing_queue.hpp:77-83 | both forms of `Mod` agree for every capacity |
| RingSafety.SlotsDiffer | source/runtime/multi_thread/v2/ws/work_stealing_queue.hpp:31-41 | indices less than a lap apart have different slots, so a push never overwrites a live task |
| RingSafety.StepKeepsInv | source/runtime/multi_thread/v2/ws/work_stealing_queue.hpp:31-70 | no step of any thread invalidates what another thread has loaded, unless `head_` has moved |
| RingCalls.InsideItsCall | source/runtime/multi_thread/v2/ws/work_stealing_queue.hpp:31-70 | in every run, a thread that has entered with `TryPush(task)` or `Grab(room)` and has not returned works with that task or that room, through any number of failed CASes |
| RingCalls.Linearizable | source/runtime/multi_thread/v2/ws/work_stealing_queue.hpp:31-70 | inside a call every step of its thread leaves the abstract queue alone, but for the last: `TryPush(task)` answers true and appends that task, or false on a full queue; `TryPop` takes the first task, or none from an empty queue; `Grab(room)` takes a prefix of at most `room` tasks |
| RingCalls.OnlyAnswersChange | source/runtime/multi_thread/v2/ws/work_stealing_queue.hpp:31-70 | over all runs the abstract queue changes only at the end of a call, by what that call is for |
| RingCalls.GrabAnswer | source/runtime/multi_thread/v2/ws/work_stealing_queue.hpp:58-70 | in every run, a `Grab(room)` answers exactly what a bounded FIFO queue gives to `Grab(room)` at an earlier moment inside the call, the load of `tail_` in its last round, and nothing was taken in between; so an empty answer into a buffer with room found the ring empty then, and a short one took all there was; for the owner the same holds at the CAS |
| RingCalls.GrabExactIff | source/runtime/multi_thread/v2/ws/work_stealing_queue.hpp:58-70 | in every run, what a `Grab(room)` answers is what a bounded FIFO queue gives to it at the CAS if and only if the buffer is full or `tail_` has not moved since the load |
| RingCalls.LeftAloneEnds | source/runtime/multi_thread/v2/ws/work_stealing_queue.hpp:31-70 | in every reachable state, each step of a call that nobody interferes with, short of spurious failures, brings it closer to its end |
| RingSafety.StaleGrab | source/runtime/multi_thread/v2/ws/work_stealing_queue.hpp:58-70 | for every capacity, buffer and task there is a run that ends with a `Grab` about to take nothing from a ring that holds the task |
| RingSafety.FifoOverRuns | source/runtime/multi_thread/v2/ws/work_stealing_queue.hpp:85-87 | head <= tail <= head + Capacity always, and what was taken, followed by the contents, is what was pushed, in order |
| WorkStealingQueue.WorkStealingTaskQueue.TryPush | source/runtime/multi_thread/v2/ws/work_stealing_queue.hpp:31-41 | appends the task unless the ring is full, and says which |
| WorkStealingQueue.WorkStealingTaskQueue.TryPop | source/runtime/multi_thread/v2/ws/work_stealing_queue.hpp:43-56 | removes the oldest task, whatever number of weak CASes fail; none only if empty |
| WorkStealingQueue.WorkStealingTaskQueue.Grab | source/runtime/multi_thread/v2/ws/work_stealing_queue.hpp:58-70 | moves the oldest tasks, as many as there are and as fit, in order |
| WorkStealingQueue.WorkStealingTaskQueue.SpaceLowerBound | source/runtime/multi_thread/v2/ws/work_stealing_queue.hpp:72-74 | gives the free places exactly when nobody interferes |
| SchedulerConservation.TasksConserved | source/runtime/multi_thread/v2/ws/worker.cpp:62-137 | in every reachable state the submitted tasks are the executed ones plus those in LIFO slots, local queues, buffers in transfer, the global queue, and those running |
| SchedulerConservation.BuffersFit | source/runtime/multi_thread/v2/ws/worker.cpp:76-96 | transfer buffers never exceed `kGrabAmount`, local queues never their capacity, and a LIFO slot holds at most one task |
| SchedulerConservation.ExecBalanced | source/runtime/multi_thread/v2/ws/worker.cpp:31-84 | each step of a worker adds to what is held, queued or executed exactly what it adds to what is submitted |
| SchedulerConservation.StealConserves | source/runtime/multi_thread/v2/ws/worker.cpp:103-127 | a steal of any number of tasks that fits the buffer moves them from one worker to another and changes no total |
| SchedulerParking.NoLostWakeup | source/runtime/multi_thread/v2/ws/worker.cpp:190-214 | before a stop has set a flag, if all workers sleep and no outside thread is inside `Submit`, the global queue, all local queues and all LIFO slots are empty, and every sleeper sleeps on its current `wakeups_` |
| SchedulerParking.QueuedTaskIsSeen | source/runtime/multi_thread/v2/ws/thread_pool.cpp:34-41 | while the global queue is not empty before a stop, some worker will look at it before it can sleep, or some submitter is still to wake one |
| SchedulerParking.SizeNeverLow | source/runtime/multi_thread/v2/ws/coordinator.cpp:9-40 | `approximate_size_` is the length of the list plus the wakes under way plus the workers that `Unlink` ever removed; so it is never too small, and exact if and only if there is none of either |
| SchedulerParking.SizeDrifts | source/runtime/multi_thread/v2/ws/coordinator.cpp:35-40 | for every k there is a run, with one worker and no task, that ends with an empty list, no wake under way and a size of k |
| SchedulerParking.SomebodyUnsettled | source/runtime/multi_thread/v2/ws/coordinator.cpp:25-33 | without a stop, a wake that finds the list empty means that some worker is not on its way to sleep |
| SchedulerParking.NoMissedStop | source/runtime/multi_thread/v2/ws/worker.cpp:240-243 | a worker that `Stop` has woken is never asleep on a matching `wakeups_`, and the futex wake for it is on its way |
| SchedulerParking.WorkerLeavesNothing | source/runtime/multi_thread/v2/ws/worker.cpp:198-208 | a worker that has exited was stopped, has an empty LIFO slot and local queue, and has left nothing of its own in the global queue |
| SchedulerParking.NothingAbandoned | source/runtime/multi_thread/v2/ws/thread_pool.cpp:43-50 | when all workers have exited, every submitted task was executed, except those that outside threads pushed and nobody took |
| SchedulerStop.StopReachesAll | source/runtime/multi_thread/v2/ws/thread_pool.cpp:43-46 | in every run, when an outside thread's `Stop` has gone through its loop, every worker has its stop flag set and has been woken |
| SchedulerStop.StoppedByStop | source/runtime/multi_thread/v2/ws/worker.cpp:240-243 | a worker has its stop flag set only after some outside thread has called `Stop` |
| SchedulerStop.LeftAloneGetsSomewhere | source/runtime/multi_thread/v2/ws/worker.cpp:172-228 | in every reachable state, each step of a worker that nobody disturbs brings it closer to running a task, to sleep, or to its exit; one that has been told to stop does not go to sleep |
| SchedulerParking.WorkerStepKeepsInv | source/runtime/multi_thread/v2/ws/worker.cpp:172-228 | every step of a worker, alone, stealing or waking another, keeps the parking invariant |
| SchedulerParking.OutsiderStepKeepsInv | source/runtime/multi_thread/v2/ws/thread_pool.cpp:34-50 | every step of `Submit` and `Stop` by outside threads keeps the parking invariant |
| SchedulerFairness.PickedTask | source/runtime/multi_thread/v2/ws/worker.cpp:139-188 | in every run, a pick from the LIFO slot takes the task in it and one from the local queue its head, at most 16 LIFO picks come in a row, and the poll serves only every 61st call |
| SchedulerFairness.BoundedBypass | source/runtime/multi_thread/v2/ws/worker.cpp:139-188 | in any stretch of any run, from a call of `PickTask` on, in which a worker does not find its local queue empty, whatever the other threads do: of the n calls begun at most ceil(n/61) go to the poll, LIFO picks are at most 16 for each local pick plus 16, and of the m calls finished at least floor((m - ceil(n/61)) / 17) pop the local head |
| SchedulerOrder.LocalIsFifo | source/runtime/multi_thread/v2/ws/worker.cpp:70-84 | whoever moves, a step appends to a local queue at most the task that its own worker is pushing, and removes tasks only from its front |
| SchedulerOrder.GlobalIsFifo | source/runtime/multi_thread/v2/ws/global_queue.hpp:17-46 | the same for the global queue |
| SchedulerOrder.ParkedIsFifo | source/runtime/multi_thread/v2/ws/coordinator.cpp:9-40 | a worker that parks goes to the back of the list, and a wake takes out and bumps the one at the front |
| SchedulerOrder.MissesAreTrue | source/runtime/multi_thread/v2/ws/worker.cpp:139-157 | in every run, a worker goes on to the next queue only if the one it looks at is empty, or after 16 LIFO picks in a row |
| SchedulerOrder.TaskLeaves | source/runtime/multi_thread/v2/ws/worker.cpp:139-188 | in every run, whatever the LIFO slot, the global queue and the other threads do, the task at position p of a local queue has left it before its worker has begun 18(p + 1) + 3 more calls of `PickTask` |
| SchedulerPlacement.SubmitSetsOut | source/runtime/multi_thread/v2/ws/worker.cpp:31-46 | a running task's submission will be, for each hint, where the worker's sequential operation puts it |
| SchedulerPlacement.PlacingKeepsCourse | source/runtime/multi_thread/v2/ws/worker.cpp:62-96 | the small steps of pushing, overflowing, spreading a batch and notifying refine those operations: no own step changes where the tasks in the worker's hands will be |
| SchedulerPlacement.GrabSetsOut | source/runtime/multi_thread/v2/ws/worker.cpp:133-137 | a batch from the global queue gives its first task, and the others will be in the local queue in order |
| SchedulerPlacement.StealSetsOut | source/runtime/multi_thread/v2/ws/worker.cpp:103-127 | the same for a batch from a victim's front |
| SchedulerPlacement.WorkerIsRecorded | source/runtime/multi_thread/v2/ws/worker.cpp:219-228 | the conserved histories are exactly what running tasks submit and what has run to its end |
| SchedulerPlacement.OutsiderIsRecorded | source/runtime/multi_thread/v2/ws/thread_pool.cpp:34-41 | a task that an outside thread submits is recorded and goes to the back of the global queue, and nothing else it does is |
| SchedulerObjects.GlobalTaskQueue.PushMany | source/runtime/multi_thread/v2/ws/global_queue.hpp:22-28 | appends the buffer in order |
| SchedulerObjects.GlobalTaskQueue.Grab | source/runtime/multi_thread/v2/ws/global_queue.hpp:35-46 | moves the first tasks, as many as there are and as fit |
| SchedulerObjects.Coordinator.AddStoppedWorker | source/runtime/multi_thread/v2/ws/coordinator.cpp:9-15 | links a worker at most once and counts it when it does |
| SchedulerObjects.Coordinator.WakeWorker | source/runtime/multi_thread/v2/ws/coordinator.cpp:25-33 | bumps the `wakeups_` of exactly the longest-parked worker and unlinks it |
| SchedulerObjects.Coordinator.Unlink | source/runtime/multi_thread/v2/ws/coordinator.cpp:35-40 | takes the worker out, keeps the order of the others and leaves the size alone |
| SchedulerObjects.Coordinator.NotifyOnSubmit | source/runtime/multi_thread/v2/ws/coordinator.hpp:22-26 | wakes the longest-parked worker exactly if some worker is parked, whatever the size overestimates |
| SchedulerWorker.PushedAllConserves | source/runtime/multi_thread/v2/ws/worker.cpp:70-96 | pushing a buffer, overflows included, loses and doubles no task and stays within the capacity |
| SchedulerWorker.DisplacedConserves | source/runtime/multi_thread/v2/ws/worker.cpp:62-68 | the task displaced from the LIFO slot is in one of the queues, once, and nothing else changes its number |
| SchedulerWorker.BatchConserves | source/runtime/multi_thread/v2/ws/worker.cpp:86-137 | taking a batch from the front of another queue and keeping its first task loses and doubles none |
| SchedulerWorker.RoomForAll | source/runtime/multi_thread/v2/ws/worker.cpp:86-96 | a batch taken into an empty local queue never overflows |
| SchedulerWorker.Worker.OffloadTasksToGlobalQueue | source/runtime/multi_thread/v2/ws/worker.cpp:76-84 | the older part of a full local queue and then the overflowing task go to the end of the global queue |
| SchedulerWorker.Worker.PushToLocalQueue | source/runtime/multi_thread/v2/ws/worker.cpp:70-74 | appends to the local queue, or overflows when it is full |
| SchedulerWorker.Worker.PushToLifoSlot | source/runtime/multi_thread/v2/ws/worker.cpp:62-68 | the newest task takes the slot and the one it displaces goes to the local queue |
| SchedulerWorker.Worker.Push | source/runtime/multi_thread/v2/ws/worker.cpp:31-46 | where a task goes for each scheduling hint; a parked worker is notified in any case, and one more if the local queue overflows |
| SchedulerWorker.Worker.GetFromBuffer | source/runtime/multi_thread/v2/ws/worker.cpp:86-96 | keeps the first task and pushes the others in order |
| SchedulerWorker.Worker.TryGrabTasksFromGlobalQueue | source/runtime/multi_thread/v2/ws/worker.cpp:133-137 | takes a batch from the front of the global queue and gives its first task |
| SchedulerWorker.Worker.TryStealTasks | source/runtime/multi_thread/v2/ws/worker.cpp:103-127 | steals from the first other worker that has tasks, and only from it |
| SchedulerWorker.Worker.TryGetWork | source/runtime/multi_thread/v2/ws/worker.cpp:139-170 | LIFO slot within the chain cap, then local head, then global batch, then a steal; nothing only if all are empty |
| FutureSafety.SchedulesTerminate | source/future/detail/contract_state.hpp:21-47 | every schedule of tasks and callbacks is at most `Work` steps long, and `Work` depends on the tree only |
| FutureSafety.CompleteScheduleDelivers | source/future/detail/contract_state.hpp:21-47 | no schedule gets stuck: one that cannot go on has set every promise in the tree, those of returned futures included, exactly once, and has delivered exactly one value, and one that the tree denotes |
| FutureSafety.EverythingOnce | source/future/make/contract.hpp:39-57 | at no time of any schedule was a promise set twice, a callback fired twice, a user function called twice, or a value delivered twice |
| FutureSteps.StepProgress | source/future/detail/contract_state.hpp:21-47 | every step narrows the values a running tree may still give, and those it may give late, and uses up work |
| FutureSteps.AssembledIsLate | source/future/make/spawn.hpp:25-36 | a tree that has been put together and is not set gives all that it may still give late |
| FutureSteps.StepUnaryWF | source/future/combine/seq/flatten.hpp:18-30 | every step of `Map`, `MapOk`, `AndThen`, `OrElse` and `Flatten` keeps their contracts and phases consistent |
| FutureSteps.FireSourceProgress | source/future/combine/seq/result/and_then.hpp:33-59 | when its input arrives, a unary combinator passes it on or submits one user call, as its set of possible values says |
| FutureSteps.RunTaskProgress | source/future/combine/seq/result/or_else.hpp:25-50 | the user call sets its result, or the future it returned takes over with a subset of the possible values |
| FutureSteps.StepBinaryWF | source/future/combine/concur/all.hpp:31-49 | every step of `Both`, `First` and `FirstOk` keeps the shared word and stored values in agreement with what arrived |
| FutureSteps.FireLeftWithin | source/future/combine/concur/first.hpp:21-28 | what a binary combinator sets, or still waits for, when its left input arrives was possible before, late or not |
| FutureSteps.FireRightWithin | source/future/combine/concur/result/first.hpp:27-38 | the same for its right input |
| FutureSemantics.ApplyDenotes | source/future/combine/seq/result/and_then.hpp:33-59 | a combinator denotes exactly what it may give for some value that its input denotes: `Map` f(v), `MapOk` Ok(f(x)) on Ok(x) and the error itself, `AndThen` what the future g(x) denotes on Ok(x) and the error itself, `OrElse` what g(e) denotes on Err(e) and the success itself, `FlatMap` what g(v) denotes |
| FutureSemantics.OthersDenote | source/future/combine/concur/all.hpp:31-49 | `Ready` denotes its value, a task its result, and `Both` exactly the pairs |
| FutureSemantics.EveryNodeComputes | source/future/combine/seq/result/map_ok.hpp:29-50 | at any time in any schedule of any tree, every future in it, those that user functions returned included, has called its user function at most as the value of its input demands, with the right argument, and has been set only to the right value: by the equations above, with the value its own input has delivered |
| FutureSemantics.PassesWithoutCall | source/future/combine/seq/result/or_else.hpp:25-50 | in every schedule, `MapOk` and `AndThen` over an error and `OrElse` over a success make no user call and deliver the very value of their input |
| FutureSafety.RaceFreeIsEval | source/future/combine/seq/map.hpp:28-44 | a tree without `First` and `FirstOk`, in itself and in what its user functions return, denotes one value, that of pure evaluation, which is defined by cases on the combinators |
| FutureSafety.SchedulesAgreeWithEval | source/future/make/spawn.hpp:25-36 | every complete schedule of such a tree delivers that value |
| FutureSafety.FirstOkFailsOnlyIfBothFail | source/future/combine/concur/result/first.hpp:27-38 | `FirstOk` gives an error only if both inputs failed in that very schedule, and otherwise a success of one of them |
| FutureAttained.Attained | source/future/combine/concur/first.hpp:21-30 | every value that a tree denotes is delivered by some complete schedule, with inputs consumed in order and callbacks of set inputs run at once |
| FutureAttained.DenotationIsExact | source/future/detail/contract_state.hpp:21-33 | a value is denoted if and only if some complete schedule delivers it |
| FutureAttained.RightDecidesIff | source/future/combine/concur/first.hpp:21-28 | `First` delivers a value that only its right input has in some schedule if and only if its left input may come late |
| FutureAttained.FirstIsUnionIff | source/future/combine/concur/first.hpp:27-28 | `First` can deliver every value of both inputs if and only if the left one may come late or the right one adds nothing |
| FutureAttained.ReadyDecides | source/future/make/ready.hpp:19-25 | with a ready left input, every complete schedule of `First` delivers that input's value |
| FutureAttained.ErrorIff | source/future/combine/concur/result/first.hpp:27-38 | `FirstOk` delivers an error in some schedule if and only if both inputs may fail and it can come last: any error of the right input, or one of the left input that may come late |
| FutureAttained.LeftErrorIff | source/future/combine/concur/result/first.hpp:27-38 | `FirstOk` delivers an error that only its left input has in some schedule if and only if that error may come late and the right input may fail |
| FutureAttained.RightErrorIff | source/future/combine/concur/result/first.hpp:27-38 | it delivers an error that only its right input has if and only if the left input may fail |
| FutureAttained.SuccessIff | source/future/combine/concur/result/first.hpp:27-38 | it delivers a success of the left input in some schedule always, and one of the right input if and only if the left one may come late or fail |
| FutureAttained.LastErrorDecides | source/future/combine/concur/result/first.hpp:27-38 | of two ready errors, every complete schedule of `FirstOk` delivers the right one |
| FutureAttained.InlineIsNeverLate | source/future/combine/seq/map.hpp:28-44 | a tree all of whose tasks run inline is set when it has been put together |
| FutureContract.RendezvousStateMachine.Produce | source/future/detail/rendezvous.hpp:15-17 | true exactly if the consumer came first and the producer for the first time |
| FutureContract.RendezvousStateMachine.Consume | source/future/detail/rendezvous.hpp:20-22 | true exactly if the producer came first and the consumer for the first time |
| FutureContract.ContractState.Produce | source/future/detail/contract_state.hpp:21-26 | does to the contract what the machine's produce-and-fire does; the callback gets the value and the state goes exactly if both sides are there |
| FutureContract.ContractState.Consume | source/future/detail/contract_state.hpp:28-33 | the same for the consumer |
| FutureContract.Promise.Set | source/future/make/contract.hpp:39-57 | gives up the shared state, so that the promise is satisfied, and produces into it |
| FutureContract.RoundTrip | source/future/make/contract.hpp:84-93 | whichever comes first, `Set` or `Consume`, the callback gets the value, once |
| FutureBothOk.SetAtMostOnceIff | source/future/combine/concur/result/all.hpp:31-59 | the promise is set at most once in every schedule if and only if not both inputs are errors |
| FutureBothOk.SecondSet | source/future/combine/concur/result/all.hpp:31-51 | with two errors there is a schedule with two `Set`s |
| FutureBothOk.CompleteSetsAnswer | source/future/combine/concur/result/all.hpp:31-59 | with at most one error, complete schedules set exactly the pair or the error |
| LeftistHeap.MergedWellFormed | source/detail/intrusive_leftist_heap.hpp:22-43 | merging keeps exactly the nodes of both heaps, the order by deadline, and the leftist shape |
| LeftistHeap.RankIsLogarithmic | source/detail/intrusive_leftist_heap.hpp:18-20 | the depth of a node is at most log2(n + 1) for the n nodes that it roots |
| LeftistHeap.CallsAreLogarithmic | source/detail/intrusive_leftist_heap.hpp:22-43 | within the bound that `Merge` keeps, calls <= log2(\|l\| + 1) + log2(\|r\| + 1) + 1 |
| LeftistHeap.PushIsLogarithmic | source/detail/intrusive_leftist_heap.hpp:11-16 | as many nested calls as `Merge` is allowed with one node and a tree of n are at most log2(n + 1) + 2 |
| LeftistHeap.PopIsLogarithmic | source/detail/intrusive_leftist_heap.hpp:53-61 | and with the two children of a node that roots n, at most 2 log2(n) + 1 |
| LeftistHeap.IntrusiveTimerLeftistHeap.CountsTimers | source/detail/intrusive_leftist_heap.hpp:11-16 | the count in these bounds is the number of timers in the heap |
| LeftistHeap.Merge | source/detail/intrusive_leftist_heap.hpp:22-43 | on disjoint linked nodes, in place: the links spell out the merged tree, every `depth` is the true null-path length, no deadline changes, and calls nest at most Depth(l) + Depth(r) + 1 deep |
| LeftistHeap.IntrusiveTimerLeftistHeap.Push | source/detail/intrusive_leftist_heap.hpp:11-16 | adds exactly the item and keeps the heap well formed, whatever links the item had; with n timers before, nests at most log2(n + 1) + 2 calls of `Merge` |
| LeftistHeap.IntrusiveTimerLeftistHeap.Pop | source/detail/intrusive_leftist_heap.hpp:53-61 | takes out exactly one timer, none of the others being due earlier, and leaves it unlinked; with n timers before, nests at most 2 log2(n) + 1 calls of `Merge` |
| LeftistHeap.IntrusiveTimerLeftistHeap.EarliestTop | source/detail/intrusive_leftist_heap.hpp:45-51 | the top is a timer that none of the others precedes, and null exactly if there is none |
| Sandbox.Clock.AdvanceTo | source/runtime/sandbox/clock.hpp:20-23 | the assertion's outcome, and the clock after it |
| Sandbox.TimerQueue.Set | source/runtime/sandbox/timer_queue.cpp:7-10 | the deadline is now plus the delay; none is overdue afterwards if and only if none was and the delay is not negative |
| Sandbox.TimerQueue.AdvanceClockToNextDeadline | source/runtime/sandbox/timer_queue.cpp:24-29 | the assertion holds if and only if no timer is overdue, and then the clock shows the earliest deadline |
| Sandbox.TimerQueue.PopReadyTimers | source/runtime/sandbox/timer_queue.cpp:31-41 | exactly the due timers come out, each once, sorted by deadline, unlinked |
| Sandbox.Runtime.MoveReadyToQueue | source/runtime/sandbox/runtime.cpp:5-13 | exactly the due timers are queued and counted, and the order of everything handed over so far is kept |
| Sandbox.Runtime.AdvanceClockBy | source/runtime/sandbox/runtime.cpp:29-32 | moves exactly the timers due at the new time and gives their number; for any delta, what was in order stays so if and only if nothing handed over before lies after the new time |
| Sandbox.Runtime.AdvanceClockToNextDeadline | source/runtime/sandbox/runtime.cpp:34-37 | the assertion holds if and only if no timer is overdue; then at least one timer, if there is any, and exactly the due ones are moved |
| Sandbox.Runtime.RunTask | source/runtime/sandbox/manual_loop.cpp:13-15 | a task that runs submits all that it submits, in order, and sets one new timer for each of its `Set`s, with its task and the deadline now plus delay, and no other |
| Sandbox.Runtime.RunAtMostTasks | source/runtime/sandbox/manual_loop.cpp:11-17 | runs tasks in the order of submission, at most `limit`, fewer only if none is left, and gives their number; what has been submitted since is exactly what those tasks submit, in order, and the timers are the old ones plus one new one for each of their `Set`s, with its task and deadline |
| Sandbox.Runtime.PerformCommand | source/runtime/sandbox/runtime.cpp:19-37 | the exact effect of each command on the clock, the queue, the tasks that have run and all timers |
| Sandbox.Runtime.Drive | source/runtime/sandbox/runtime.cpp:5-37 | whole runs with non-negative delays and deltas: each command has exactly its effect on the state the one before has left, all timers handed over are sorted by deadline, the assertion never fails, and each submitted task ran once in order or is still queued |
| Sandbox.StaysInTime | source/runtime/sandbox/timer_queue.cpp:31-41 | a command without a negative delay or delta leaves no timer overdue and the order of what was handed over right |
| Sandbox.NegativeDelayFails | source/runtime/sandbox/clock.hpp:20-23 | after one `Set`, the assertion fails exactly if the delay was negative |
| Sandbox.FireAfter | source/runtime/sandbox/runtime.cpp:29-32 | for any runtime in order and any delta: after one more timer, all timers handed over are sorted by deadline if and only if none before lies after the new time |
| Sandbox.NegativeDeltaReorders | source/runtime/sandbox/clock.hpp:16-18 | two timers with a delta between them come out in order if and only if the delta is not negative |
| TimerBlockingQueues.TimerBlockingQueue.Push | source/detail/timer_queue.hpp:23-30 | adds the timer and notifies exactly if somebody waits |
| TimerBlockingQueues.TimerBlockingQueue.GetClosestTimer | source/detail/timer_queue.hpp:32-45 | waits exactly while open and empty; gives a timer with the earliest deadline, also after `Close`, and null only if closed and empty |
| TimerBlockingQueues.TimerBlockingQueue.NearestDeadLine | source/detail/timer_queue.hpp:56-70 | gives the earliest deadline, or nothing exactly if closed and empty |
| TimerThread.NeverEarlyNeverNull | source/runtime/multi_thread/v1/timer_thread.cpp:42-50 | no timer is submitted before its deadline, even if nearer ones arrive during the sleep, and no submitted pointer is null |
| TimerThread.PushedBySet | source/runtime/multi_thread/v1/timer_thread.cpp:15-21 | in every run, each timer that was ever pushed was pushed by a call `Set(id, delay)` of some thread and has that id and the deadline `delay` after the clock at the call |
| TimerThread.NotBeforeTheDelay | source/runtime/multi_thread/v1/timer_thread.cpp:15-50 | whatever is submitted was set by a call `Set(id, delay)`, and at least `delay` has passed since that call |
| TimerThread.SleepsForTheNearest | source/detail/timer_queue.hpp:56-70 | the deadline that the thread sleeps for was the earliest in the queue when its round began |
| TimerThread.SleepsNoLonger | source/runtime/multi_thread/v1/timer_thread.cpp:44-47 | a sleep lasts past that deadline by exactly what has passed between the look at the clock and the beginning of the sleep |
| TimerThread.SubmittedExactlyOnce | source/runtime/multi_thread/v1/timer_thread.cpp:29-50 | no timer is submitted more often than pushed, and when `Run` has ended all timers pushed before `Close` have been |
| TimerThread.NoMissedNotification | source/detail/timer_queue.hpp:23-54 | the thread never waits un-notified while the queue is closed or has timers, and never waits in `GetClosestTimer` |
| TimerThread.RunEnds | source/runtime/multi_thread/v1/timer_thread.cpp:42-50 | after `Close` each step of the thread, but for sleeping on, decreases a measure |
| TimerThread.StepKeepsInv | source/runtime/multi_thread/v1/timer_thread.cpp:15-50 | every step of every thread keeps: a timer due by the awaited deadline is in the queue, notifications are not missed, pushed timers are queued, in hand or submitted |
| CircularBuffers.WrapIsRemainder | source/fiber/chan/detail/circular_buffer.hpp:50-57 | wrapping once is the remainder |
| CircularBuffers.CircularBuffer.Emplace | source/fiber/chan/detail/circular_buffer.hpp:20-25 | appends to the contents and overwrites no live slot |
| CircularBuffers.CircularBuffer.Pop | source/fiber/chan/detail/circular_buffer.hpp:27-36 | removes the first element and leaves its slot raw |
| CircularBuffers.CircularBuffer.Destroy | source/fiber/chan/detail/circular_buffer.hpp:78-83 | the walk destroys each element once, in order, and nothing else |
| ChannelRuns.DriveBuffered | source/fiber/chan/detail/buffered_channel_state.hpp:33-101 | whole runs from an empty channel, sends and receives entering in any order: the k-th receive has the k-th send's value, at once or on being woken, and is woken exactly if that send has come; the fibers scheduled are those of the wakes, in their order |
| ChannelRuns.WokenIff | source/fiber/chan/detail/buffered_channel_state.hpp:33-101 | in whole runs, the k-th send is woken exactly if it had to wait and k < R + c for the R receives entered by now, and the k-th receive exactly if it had to wait and the k-th send has come |
| ChannelRuns.WokenOnce | source/fiber/chan/detail/buffered_channel_state.hpp:33-101 | nobody is woken twice |
| ChannelRuns.DriveRendezvous | source/fiber/chan/detail/rendezvous_channel_state.hpp:27-85 | the same as for the buffered channel with capacity 0 |
| Channels.BufferedChannelState.Census | source/fiber/chan/detail/buffered_channel_state.hpp:33-101 | with S sends and R receives entered: clamp(S - R, 0, c) values in the buffer, max(0, S - R - c) parked senders and max(0, R - S) parked receivers in the list, never both, and `state_` agrees |
| Channels.RendezvousChannelState.Census | source/fiber/chan/detail/rendezvous_channel_state.hpp:27-85 | the same with capacity 0 |
| Channels.ReceiveFromSenders | source/fiber/chan/detail/buffered_channel_state.hpp:88-99 | a receive takes the value of its own number and the first blocked sender's value moves to the end of the buffer |
| Channels.WaitList.ServeReceiver | source/fiber/chan/detail/rendezvous_channel_state.hpp:30-38 | the first waiting receiver gets the value, is scheduled, and the state word agrees |
| Channels.WaitList.TakeSender | source/fiber/chan/detail/rendezvous_channel_state.hpp:60-67 | the first waiting sender's value is taken, it is scheduled, and the state word agrees |
| Channels.WaitList.ParkSender | source/fiber/chan/detail/rendezvous_channel_state.hpp:39-51 | the sender is the last waiter, with its value |
| Channels.WaitList.ParkReceiver | source/fiber/chan/detail/rendezvous_channel_state.hpp:68-80 | the receiver is the last waiter, with the number of its receive |
| Channels.WaitList.Resume | source/fiber/chan/detail/buffered_channel_state.hpp:82-85 | a woken receiver returns the value of the send with its own number |
| Channels.BufferedChannelState.Send | source/fiber/chan/detail/buffered_channel_state.hpp:33-65 | one more send of the abstract channel; suspends exactly if that blocks; wakes exactly the first waiting receiver |
| Channels.BufferedChannelState.Receive | source/fiber/chan/detail/buffered_channel_state.hpp:67-101 | one more receive of the abstract channel: the k-th receive gets the k-th send's value, at once or when woken; wakes exactly the first blocked sender |
| Channels.RendezvousChannelState.Send | source/fiber/chan/detail/rendezvous_channel_state.hpp:27-54 | the same with capacity 0 |
| Channels.RendezvousChannelState.Receive | source/fiber/chan/detail/rendezvous_channel_state.hpp:56-85 | the same with capacity 0 |
| ThreadMutex.MutualExclusion | source/thread/mutex.hpp:13-30 | at most one thread is past `Lock` without having unlocked, and the word is not 0 while one is |
| ThreadMutex.FreeWhenUnheld | source/thread/mutex.hpp:13-30 | the word is 0 if nobody holds the lock |
| ThreadMutex.NoStrandedSleeper | source/thread/mutex.hpp:20-29 | if a thread sleeps, the lock is held with the word at Waiting, or a `WakeOne` is owed, or a thread is about to exchange |
| ThreadMutex.LockEndsHolding | source/thread/mutex.hpp:13-23 | in every run, a thread that has called `Lock` does not come back before it holds the mutex |
| ThreadMutex.LeftAloneEnds | source/thread/mutex.hpp:13-30 | a thread inside `Lock` that is left alone takes the mutex if nobody holds it, and one inside `Unlock` comes back |
| FiberMutex.WaitQueue.WakeAll | source/fiber/sync/wait_queue.cpp:13-17 | schedules all waiting fibers in order |
| FiberMutex.WaitQueue.WakeOne | source/fiber/sync/wait_queue.cpp:5-11 | schedules the fiber that has waited longest |
| FiberMutex.Mutex.LockRound | source/fiber/sync/mutex.cpp:14-16 | one round of the loop takes the mutex exactly if it was free, and otherwise parks the fiber at the end of the queue |
| FiberMutex.Mutex.Lock | source/fiber/sync/mutex.cpp:11-17 | up to its return or its suspension: takes the mutex exactly if it was free, and otherwise parks the fiber |
| FiberMutex.Mutex.Resume | source/fiber/sync/wait_queue.hpp:11-25 | a woken fiber retries: it takes the mutex or parks again |
| FiberMutex.Mutex.TryLock | source/fiber/sync/mutex.cpp:19-22 | takes the mutex exactly if it was free and never waits |
| FiberMutex.Mutex.Unlock | source/fiber/sync/mutex.cpp:24-29 | frees the mutex and schedules the fiber that has waited longest |
| FiberMutex.Drive | source/fiber/sync/mutex.cpp:11-29 | whole runs: who holds the mutex, who waits and who is scheduled, in which order, is exactly what the actions make of it one after the other; at most one holder, each fiber in exactly one place, and a free mutex with parked fibers has a woken one still to retry |

## Left out

- Wrap-around of `head_`, `tail_`, `wakeups_` and the reference counters: they are naturals here.
- Classes cannot express interleaving, so concurrent code is a transition system on values; the
  classes beside it are its sequential sections, and do not capture interference.
- The scheduler machine takes a whole operation on a local queue as one step, as `RingCalls.Linearizable` allows; thieves take any number of tasks that fits, or none, and the owner exactly what there is (`RingCalls.GrabAnswer`).
- The store of `next_` and the allocation of a mutator are merged with the load before the registration CAS, which is safe since the mutator is not yet shared.
- Destructors of managed objects that drop shared pointers themselves, and `Collector::~Collector`.
- The joins at the end of `Stop`: it is over here when its loop has told and woken every worker.
- `spinning_` of the coordinator, which nothing reads, and the idle random generator of a worker.
- External submissions that race with `Stop`: a worker's last look at the queue comes before its look at the stop flag, so such tasks may stay behind.
- `Flatten` occurs only after `Map`, as `FlatMap`; `Via` is the runtime of a combinator; `After`, `Box`, `Start`, `Get` and `Detach` are the system's one consumer or are not modelled.
- The header of the inline runtime is not part of this model: it is taken to run a task inside `Submit`.
- The two inputs of a binary combinator may be put together in either order, or at the same time, since the order of evaluation of arguments is open.
- A tree is put together by one thread: handing the input of a combinator to another thread before it is consumed is not modelled.
- FutureSafety.SchedulesTerminate: does not cover trees whose user functions return futures without end, which run for ever in the source as well.
- A contract's `delete this` is a flag; that no side touches the state afterwards is `alive` in the preconditions.
- HazardGc.GarbageBound: does not speak about slots that change during the collection.
- Sandbox.Runtime.RunAtMostTasks: does not model the wrap of `limit` in `RunTasks`, which is a run without limit.
- A sandbox task is the list of submissions and timers it makes; a timer's wrapped task is its name.
- `TimerThread::Set` asserts that timers are enabled, which the timer thread's owner sees to.
- FiberMutex.Mutex.Lock: is the call up to its suspension; the later rounds of its loop are `FiberMutex.Mutex.Resume`, and whole runs are `FiberMutex.Drive`.
- FiberMutex.Drive: does not model what fibers do outside the mutex.
- Context switches, stacks, threads, tracing, raw storage, move semantics, the real clock and the futex system calls.
- `SpinLock`, `CondVar`, `WaitGroup`, `Event`, `UnboundedBlockingQueue`, `RunLoop` and the thread pool of runtime v1, which are simpler or rest on unseen libraries.
