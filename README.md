# DeferredTasksExecutor, modelled in Dafny

This project models the core of a priority-ordered deferred-task executor.
Callers build tasks and submit them. Each task has a priority clamped to
[0, 100] and an id from a process-wide counter. The executor keeps the
submitted tasks in a max-priority pool and records a status per id
(InQueue, Processing, Cancelled, Done). An admission loop dispatches
workers while a slot is free. Each worker pops a top-priority task and runs
it only if it is still InQueue.

Threads are not modelled. Each public operation, each iteration of the
admission loop and each worker's run is one atomic step on a
`DeferredTasksExecutor` object. A concurrent execution is an interleaving
of these steps.

Files and modules:

- `tasks.dfy`, module `Tasks`: the priority limits, `Clamp`, the id
  counter (`IdCounter`, the static counter behind `GenerateUniqueId`) and
  the `DeferredTask` class.
- `task_queue.dfy`, module `TaskQueue`: the pool's entry type, the
  `Comparer` ordering (`Less`), and `IsTop`, the rule for what `top()` may
  return. The pool is a multiset because the comparer has no secondary key,
  so ties are unordered. `TopExists` proves that a non-empty pool always
  has a top.
- `executor.dfy`, module `Executor`: the `eStatus` values, the error
  result, the status rules of cancel and worker (`AfterCancel`,
  `AfterWorker`), the constructor's slot count (`MaxThreadsFor`) and the
  `DeferredTasksExecutor` class. `Valid()` is the class invariant:
  - `running <= maxThreads` (the capacity bound);
  - every pooled id has a status entry;
  - every pooled priority is in range;
  - the run counter is keyed by exactly the known ids.

  Every step preserves `Valid()`, and no step removes a status key.
- `scenarios.dfy`, module `Scenarios`: client runs, some on a fresh
  executor and some over any valid one, with what a caller observes at the
  end. They cover:
  - cancelling twice;
  - cancelling before start;
  - the 10/90/50 priority order with one slot;
  - `ReleaseAllTasks` on five queued tasks;
  - submitting after stop;
  - a machine that reports no hardware threads.

Inputs and effects that are parameters here:

- `std::thread::hardware_concurrency()` is the constructor's parameter `hw`.
- The payload is replaced by a ghost per-id run counter, `runs`.
  `RunQueued` adds one where the source calls `Run()`.
- The source's id counter is one process-wide `static`. The model passes
  an `IdCounter` object instead and assumes a single counter, as the
  scenarios do: ids are unique among tasks built from the same counter.

Facts about the code that the model keeps:

- The slot count is `hw - 1` when `hw > 2` and `hw` otherwise, so there is
  no floor. With `hw == 0`, which `hardware_concurrency()` may report,
  there are no slots and the admission loop never dispatches
  (`NoSlotWithoutHardware`).
- `AddTask` is an upsert. Re-adding an id resets its status to InQueue,
  even from Done or Cancelled, and pushes the task again.
- `Stop` sleeps `microseconds(lim_time_for_sleep_ms)` between polls,
  although the constant is named `_ms`; the admission loop sleeps the same
  constant in milliseconds. Timing is not modelled, so this changes nothing
  below.

## Model

| member | source | states |
|---|---|---|
| `Tasks.Clamp` | DeferredTasksExecutor/DeferredTask.cpp:13-21 | the result is always in [0, 100]; in-range priorities are kept; below 0 gives 0; above 100 gives 100 |
| `Tasks.ClampIdempotent` | DeferredTasksExecutor/DeferredTask.cpp:15-18 | clamping twice is clamping once |
| `Tasks.ClampMonotone` | DeferredTasksExecutor/DeferredTask.cpp:15-18 | p <= q implies Clamp(p) <= Clamp(q) |
| `Tasks.IdCounter.constructor` | DeferredTasksExecutor/DeferredTask.cpp:44 | the counter starts at 0 with no id issued |
| `Tasks.IdCounter.GenerateUniqueId` | DeferredTasksExecutor/DeferredTask.cpp:42-46 | returns the previous value plus one; the id was never issued before and exceeds every issued id; the issued ids stay exactly 1..last |
| `Tasks.DeferredTask.constructor` | DeferredTasksExecutor/DeferredTask.h:30-32 | a new task has priority 0 and a fresh id (previous counter value plus one, not issued before) |
| `Tasks.DeferredTask.SetPriority` | DeferredTasksExecutor/DeferredTask.cpp:13-21 | the stored priority is Clamp(p), so in-range p is stored unchanged; the id is a constant and the task stays valid |
| `Tasks.DeferredTask.GetPriority` | DeferredTasksExecutor/DeferredTask.cpp:30-33 | a read-only accessor whose result is the stored priority, always in [0, 100] |
| `Tasks.DeferredTask.GetTaskId` | DeferredTasksExecutor/DeferredTask.cpp:36-39 | a read-only accessor whose result is the task's constant id, at least 1 |
| `TaskQueue.ComparerIsStrictWeakOrder` | DeferredTasksExecutor/DeferredTasksExecutor.cpp:20-23 | the comparer is irreflexive and transitive, and its incomparability is transitive; equivalent tasks are exactly those of equal priority |
| `TaskQueue.TopExists` | DeferredTasksExecutor/DeferredTasksExecutor.cpp:224-227 | every non-empty pool has an element that no other pooled element compares above |
| `TaskQueue.TopsAreEquivalent` | DeferredTasksExecutor/DeferredTasksExecutor.h:59-62 | any two possible tops of a pool have the same priority; only the tie order is left open |
| `TaskQueue.PopsNonIncreasing` | DeferredTasksExecutor/DeferredTasksExecutor.cpp:226-227 | two pops with no push in between give non-increasing priorities; the popped task is at least every task left behind |
| `TaskQueue.TopUniqueWhenPrioritiesDistinct` | DeferredTasksExecutor/DeferredTasksExecutor.h:59-62 | when pooled priorities are pairwise distinct, every other pooled task has a strictly lower priority than the top |
| `Executor.AfterCancel` | DeferredTasksExecutor/DeferredTasksExecutor.cpp:165-177 | the status after a cancel follows the lifecycle; it is Cancelled exactly when the task was InQueue or already Cancelled; any status other than InQueue is left alone |
| `Executor.AfterWorker` | DeferredTasksExecutor/DeferredTasksExecutor.cpp:247-253 | the status a worker leaves follows the lifecycle; it is Done exactly when the task was InQueue or already Done; any status other than InQueue is left alone |
| `Executor.CancelIdempotent` | DeferredTasksExecutor/DeferredTasksExecutor.cpp:165-177 | cancelling a second time changes nothing; Cancelled and Done are fixed points of both cancel and worker |
| `Executor.MaxThreadsFor` | DeferredTasksExecutor/DeferredTasksExecutor.cpp:42-44 | the slot count never exceeds hw; above 2 it is hw - 1 and at least 2; at 2 or below it equals hw, with no floor |
| `Executor.DeferredTasksExecutor.constructor` | DeferredTasksExecutor/DeferredTasksExecutor.cpp:37-44 | the executor starts with an empty status map, an empty pool, no running workers and the stop flag clear; maxThreads is MaxThreadsFor(hw) |
| `Executor.DeferredTasksExecutor.GetTaskStatus` | DeferredTasksExecutor/DeferredTasksExecutor.cpp:267-275 | returns the recorded status exactly when the id is known, and UnknownTask otherwise |
| `Executor.DeferredTasksExecutor.IsFreeSlot` | DeferredTasksExecutor/DeferredTasksExecutor.cpp:291-294 | true exactly when running < maxThreads; under the class invariant, no free slot means the executor is exactly at capacity |
| `Executor.DeferredTasksExecutor.SetTaskStatus` | DeferredTasksExecutor/DeferredTasksExecutor.cpp:279-287 | an unknown id fails with UnknownTask and changes nothing; otherwise only that id's entry changes; no key is ever added |
| `Executor.DeferredTasksExecutor.AddTask` | DeferredTasksExecutor/DeferredTasksExecutor.cpp:138-152 | with the stop flag set, nothing changes; otherwise status[id] becomes InQueue (an upsert), every other entry is kept, and (id, priority) joins the pool |
| `Executor.DeferredTasksExecutor.CancelTask` | DeferredTasksExecutor/DeferredTasksExecutor.cpp:156-178 | an unknown id fails with UnknownTask and changes nothing; otherwise only that entry may change (InQueue becomes Cancelled) and the resulting status is returned; the pool is untouched |
| `Executor.DeferredTasksExecutor.ProcessStep` | DeferredTasksExecutor/DeferredTasksExecutor.cpp:186-214 | one admission-loop iteration: Exit exactly when stopped, Idle exactly on an empty pool; running grows by one exactly when not stopped, the pool is non-empty and running < maxThreads; the capacity bound is kept |
| `Executor.DeferredTasksExecutor.PopTop` | DeferredTasksExecutor/DeferredTasksExecutor.cpp:223-229 | removes one top element of a non-empty pool and returns it; its id is a known one |
| `Executor.DeferredTasksExecutor.RunQueued` | DeferredTasksExecutor/DeferredTasksExecutor.cpp:248-253 | a task found InQueue ends Done and its run count grows by exactly one (Processing is internal to the step) |
| `Executor.DeferredTasksExecutor.StartTask` | DeferredTasksExecutor/DeferredTasksExecutor.cpp:219-255 | the worker step: on an empty pool it only decrements running; otherwise it removes a top task; the task runs (status Done, one more run) only if it was InQueue, and a Cancelled task is dropped unrun and stays Cancelled; running drops by exactly one on both paths |
| `Executor.DeferredTasksExecutor.Start` | DeferredTasksExecutor/DeferredTasksExecutor.cpp:86-97 | clears the stop flag and changes nothing else |
| `Executor.DeferredTasksExecutor.Stop` | DeferredTasksExecutor/DeferredTasksExecutor.cpp:106-125 | sets the stop flag and returns with no worker running; meanwhile statuses only go from InQueue to Done and no key is lost; an id ran once more exactly when it went from InQueue to Done, so a Cancelled task never runs; the pool only shrinks, by at most the number of workers in flight; only the ids of the tasks the drained workers took from the pool may change status or run count, and each of those tasks that was still InQueue ends Done; with no worker in flight nothing else changes |
| `Executor.DrainStep` | DeferredTasksExecutor/DeferredTasksExecutor.cpp:219-255 | one worker step keeps the drain frame: the tasks taken so far grow by at most the popped task, only that task's id may change, and it ends Done with one more run exactly when it was InQueue |
| `Executor.DeferredTasksExecutor.ClearPool` | DeferredTasksExecutor/DeferredTasksExecutor.cpp:68-74 | pops until the pool is empty; no status entry changes |
| `Executor.DeferredTasksExecutor.ReleaseAllTasks` | DeferredTasksExecutor/DeferredTasksExecutor.cpp:63-74 | stops, drains the workers and empties the pool; the tasks the drained workers claimed are a sub-multiset of the old pool, at most one per worker in flight; only their ids may change status or run count (InQueue to Done, one run each), so every other task, the discarded ones included, keeps its status and never runs |
| `Scenarios.FreshIds` | DeferredTasksExecutor/DeferredTask.h:32 | the first two tasks built from a fresh counter get ids 1 and 2 |
| `Scenarios.CancelTwice` | DeferredTasksExecutor/DeferredTasksExecutor.cpp:156-178 | two cancels of the same id return the same result; for a queued id both return Cancelled; an unknown id fails |
| `Scenarios.CancelBeforeStart` | DeferredTasksExecutor/DeferredTasksExecutor.cpp:247-253 | a task cancelled before the loop starts gets a worker dispatched for it; Stop drains that worker, and the task is still Cancelled and never ran |
| `Scenarios.Submit` | DeferredTasksExecutor/Source.cpp:49-58 | building a task, setting its priority and adding it registers a fresh id as InQueue and pools it with the clamped priority |
| `Scenarios.DispatchAndRun` | DeferredTasksExecutor/DeferredTasksExecutor.cpp:206-229 | with a free slot and a non-empty pool, a dispatch followed by its worker removes one top task and gives the slot back |
| `Scenarios.ThreeTaskTops` | DeferredTasksExecutor/DeferredTasksExecutor.h:59-62 | in the pools {10, 90, 50}, {10, 50} and {10} the only top is 90, 50 and 10 respectively |
| `Scenarios.PriorityOrder` | DeferredTasksExecutor/DeferredTasksExecutor.cpp:20-23 | with one slot, tasks submitted with priorities 10, 90, 50 are popped as 90, 50, 10 |
| `Scenarios.ReleaseAllKeepsStatus` | DeferredTasksExecutor/DeferredTasksExecutor.cpp:63-74 | after ReleaseAllTasks, five queued and never started tasks are still InQueue and never ran |
| `Scenarios.ReleaseWithWorkerInFlight` | DeferredTasksExecutor/DeferredTasksExecutor.cpp:63-74 | ReleaseAllTasks with one worker in flight and two queued tasks: at most one of the two ever runs |
| `Scenarios.SubmitAfterStop` | DeferredTasksExecutor/DeferredTasksExecutor.cpp:140-141 | a task added after Stop stays unknown: a status query fails with UnknownTask |
| `Scenarios.NoSlotWithoutHardware` | DeferredTasksExecutor/DeferredTasksExecutor.cpp:42-44 | with hw = 0 there is no slot, so the admission loop reports NoFreeSlot even with a task queued |

## Left out

- Threads, mutexes and atomics are not modelled. This covers `Start`
  spawning `Process` and `Process` spawning workers. Each operation and each
  step is one atomic transition, and a concurrent run is an interleaving of
  them.
- Executor.DeferredTasksExecutor.ProcessStep: the free-slot check and the
  increment are one atomic step, and the capacity bound rests on that. In
  the source they are two steps (DeferredTasksExecutor.cpp:206-208). That
  is safe only while a single admission loop runs, since workers only
  decrement. `Start` spawns a new `Process` loop on every call with no
  guard, and a `Start` soon after `Stop` can find the old loop still in its
  idle sleep, which then sees the flag cleared and carries on. Two loops can
  then both see `running == maxThreads - 1` and both increment. The model
  has one admission loop and does not capture this.
- Executor.DeferredTasksExecutor.Stop: "no worker is running when Stop
  returns" rests on the admission step checking the stop flag and
  incrementing the worker count in one atomic step. In the source these
  are separate: `Process` can pass its flag check (DeferredTasksExecutor.cpp:189)
  just before `Stop` stores the flag (line 115); `Stop` then reads a zero
  count (line 120) and returns; `Process` then increments the count and
  spawns a worker (lines 208-210). That worker can pop and run a task after
  `Stop` has returned, and inside `ReleaseAllTasks` it can take the queue
  lock before the clearing loop (lines 68-69). The model does not capture
  this interleaving.
- `Process`: only one iteration is modelled (`ProcessStep`). The enclosing
  `while (true)` and its idle sleeps are timing, not logic.
- Executor.DeferredTasksExecutor.StartTask: requires `running > 0`. In the
  source a worker only exists after `Process` has incremented the count.
- Executor.DeferredTasksExecutor.StartTask: the worker's check and its two
  status updates are one atomic step. Two things follow:
  - Processing is visible only inside `RunQueued`;
  - a `CancelTask` that slips between the worker's status check and its
    status update (the race at DeferredTasksExecutor.cpp:248-250) is not
    modelled.
- Executor.DeferredTasksExecutor.Stop: the poll on the worker count is
  modelled as the in-flight workers taking their steps one by one until
  the count is zero. The sleep and its interval are not modelled.
- The debug output, the singleton accessor `Get()` and the destructor are
  not modelled. The destructor does nothing beyond calling
  `ReleaseAllTasks`, which is modelled.
- The payload (`std::function`) and `Run()` are foreign code. The model
  keeps only a ghost count of runs per id.
- Executor.DeferredTasksExecutor.AddTask: the pool records the task's
  priority at submission. In the source the heap holds the task object,
  and a later `SetPriority` on a queued task would break the heap order
  unnoticed. That case is not modelled.
- Executor.DeferredTasksExecutor.AddTask: requires the task's invariant
  (id at least 1, priority in range). Every constructed task satisfies it.
- The static initial value of `m_MaxThreadsCount` (2) is overwritten by the
  only constructor, so the model keeps only the computed value.
- `int` overflow of the static id counter is not modelled; ids are
  unbounded integers. The exception type is not modelled either; failures
  are the `UnknownTask` error result.
- DeferredTasksExecutor/Source.cpp (the demo program) is not part of this
  model. Its random priorities, sleeps and console I/O are left out;
  `Scenarios.Submit` follows its submit pattern.
