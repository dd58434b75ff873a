/**
 The deferred tasks executor as a state machine: every public operation and
 every worker or admission-loop step is one atomic transition of a
 DeferredTasksExecutor object. Threads are the interleaving of these steps.
 */
module Executor {
  import opened Tasks
  import opened TaskQueue

  /** eStatus: the four lifecycle states of a submitted task. */
  datatype Status = InQueue | Processing | Cancelled | Done

  /** The "Invalid task id" exception. */
  datatype Error = UnknownTask

  datatype Result<T> = Ok(value: T) | Err(error: Error)

  datatype Outcome = Pass | Fail(error: Error)

  datatype Option<T> = None | Some(value: T)

  /** What one iteration of the admission loop did. */
  datatype DispatchOutcome =
    | Exit        // stop flag set: the loop breaks
    | Idle        // empty pool: the loop sleeps and retries
    | Spawned     // a slot was free: one more worker was started
    | NoFreeSlot  // tasks wait but every slot is taken: the loop retries

  /** lim_default_max_threads: initial bound and the threshold for reserving a slot. */
  const DefaultMaxThreads: nat := 2

  /** Terminal statuses: no worker or cancel moves a task out of them. */
  predicate Terminal(s: Status) {
    s == Cancelled || s == Done
  }

  /** The lifecycle order: InQueue -> Processing -> Done, InQueue -> Cancelled. */
  predicate Reachable(from: Status, to: Status) {
    || from == to
    || (from == InQueue && to != InQueue)
    || (from == Processing && to == Done)
  }

  /** The status CancelTask leaves behind: only a queued task is cancelled. */
  function AfterCancel(s: Status): (r: Status)
    ensures Reachable(s, r)
    ensures r == Cancelled <==> s == InQueue || s == Cancelled
    ensures s != InQueue ==> r == s
  {
    if s == InQueue then Cancelled else s
  }

  /** The status a worker leaves behind: only a still queued task is run to Done. */
  function AfterWorker(s: Status): (r: Status)
    ensures Reachable(s, r)
    ensures r == Done <==> s == InQueue || s == Done
    ensures s != InQueue ==> r == s
  {
    if s == InQueue then Done else s
  }

  lemma CancelIdempotent(s: Status)
    ensures AfterCancel(AfterCancel(s)) == AfterCancel(s)
    ensures Terminal(s) ==> AfterCancel(s) == s && AfterWorker(s) == s
  {
  }

  /**
   `after` keeps every id of `before`, and each status either stayed or went
   from InQueue to Done: what worker steps alone can do to the status map.
   */
  ghost predicate OnlyRunToDone(before: map<int, Status>, after: map<int, Status>) {
    && after.Keys == before.Keys
    && forall id | id in before :: after[id] == before[id] || (before[id] == InQueue && after[id] == Done)
  }

  /**
   What worker steps alone can do to the run counter: the ids are kept, an
   id ran once more exactly when its status went from InQueue to Done, and
   every other id did not run.
   */
  ghost predicate RunsOnlyDone(s0: map<int, Status>, r0: map<int, nat>, s1: map<int, Status>, r1: map<int, nat>) {
    && r1.Keys == r0.Keys
    && forall id | id in r0 && id in s0 && id in s1 ::
         r1[id] == if s0[id] == InQueue && s1[id] == Done then r0[id] + 1 else r0[id]
  }

  /** The ids of the tasks in `m`. */
  ghost function PoolIds(m: multiset<PendingTask>): set<int> {
    set t | t in m :: t.id
  }

  /**
   Workers that claimed exactly the tasks in `claimed` touched no other id:
   every id outside them keeps its status and its run count.
   */
  ghost predicate OnlyClaimedChanged(s0: map<int, Status>, r0: map<int, nat>, s1: map<int, Status>, r1: map<int, nat>,
                                     claimed: multiset<PendingTask>) {
    forall id | id in s0 && id in s1 && id in r0 && id in r1 && id !in PoolIds(claimed) ::
      s1[id] == s0[id] && r1[id] == r0[id]
  }

  /** Every claimed task that was still InQueue was run to Done. */
  ghost predicate ClaimedQueuedDone(s0: map<int, Status>, s1: map<int, Status>, claimed: multiset<PendingTask>) {
    forall t | t in claimed && t.id in s0 && s0[t.id] == InQueue :: t.id in s1 && s1[t.id] == Done
  }

  /**
   What the workers drained so far did, from the state (s00, r00, p00) to
   (s, r, p): they took the tasks p00 - p, ran exactly those of them that
   were still InQueue, and left every other id alone.
   */
  ghost predicate DrainFrame(s00: map<int, Status>, r00: map<int, nat>, p00: multiset<PendingTask>,
                             s: map<int, Status>, r: map<int, nat>, p: multiset<PendingTask>) {
    && p <= p00
    && OnlyRunToDone(s00, s)
    && RunsOnlyDone(s00, r00, s, r)
    && OnlyClaimedChanged(s00, r00, s, r, p00 - p)
    && ClaimedQueuedDone(s00, s, p00 - p)
  }

  /** Before any worker step, nothing was taken and nothing changed. */
  lemma DrainNothing(s: map<int, Status>, r: map<int, nat>, p: multiset<PendingTask>)
    requires r.Keys == s.Keys
    ensures DrainFrame(s, r, p, s, r, p)
  {
    assert p - p == multiset{};
    assert PoolIds(multiset{}) == {};
  }

  /**
   One worker step keeps the drain frame: the step either took nothing, or
   took a task `t` from the pool, ran it if it was InQueue, and touched no
   other id.
   */
  lemma DrainStep(s00: map<int, Status>, r00: map<int, nat>, p00: multiset<PendingTask>,
                  s0: map<int, Status>, r0: map<int, nat>, p0: multiset<PendingTask>,
                  s1: map<int, Status>, r1: map<int, nat>, p1: multiset<PendingTask>,
                  taken: Option<PendingTask>)
    requires r00.Keys == s00.Keys
    requires DrainFrame(s00, r00, p00, s0, r0, p0)
    requires taken.None? ==> s1 == s0 && r1 == r0 && p1 == p0
    requires taken.Some? ==> taken.value in p0 && p1 == p0 - multiset{taken.value}
    requires taken.Some? ==> taken.value.id in s0 && taken.value.id in r0
    requires taken.Some? ==> s1 == s0[taken.value.id := AfterWorker(s0[taken.value.id])]
    requires taken.Some? && s0[taken.value.id] != InQueue ==> r1 == r0
    requires taken.Some? && s0[taken.value.id] == InQueue ==> r1 == r0[taken.value.id := r0[taken.value.id] + 1]
    ensures DrainFrame(s00, r00, p00, s1, r1, p1)
  {
    if taken.Some? {
      var t := taken.value;
      var claimed0 := p00 - p0;
      var claimed1 := p00 - p1;
      assert claimed1 == claimed0 + multiset{t};
      assert PoolIds(claimed1) == PoolIds(claimed0) + {t.id};
      forall u | u in claimed1 && u.id in s00 && s00[u.id] == InQueue
        ensures u.id in s1 && s1[u.id] == Done
      {
        if u.id != t.id {
          assert u in claimed0;
        }
      }
    }
  }

  /** The constructor's slot count: one hardware thread is kept for the caller when there are more than two. */
  function MaxThreadsFor(hw: nat): (r: nat)
    ensures r <= hw
    ensures hw > DefaultMaxThreads ==> r + 1 == hw && r >= DefaultMaxThreads
    ensures hw <= DefaultMaxThreads ==> r == hw
  {
    if hw > DefaultMaxThreads then hw - 1 else hw
  }

  class DeferredTasksExecutor {
    /** m_StatusMap: one entry per submitted id, never removed. */
    var status: map<int, Status>
    /** m_TasksPool: tasks not yet claimed by a worker. */
    var pool: multiset<PendingTask>
    /** m_StartedThreadsCount: workers dispatched and not yet finished. */
    var running: nat
    /** m_MaxThreadsCount. */
    var maxThreads: nat
    /** m_bNeedStopProcess. */
    var stopped: bool
    /** How often each id's payload has run (stands for the payload itself). */
    ghost var runs: map<int, nat>

    ghost predicate Valid()
      reads this
    {
      && running <= maxThreads
      && (forall t | t in pool :: t.id in status && InPriorityRange(t.priority))
      && runs.Keys == status.Keys
    }

    /** `hw` stands for std::thread::hardware_concurrency(). */
    constructor (hw: nat)
      ensures Valid()
      ensures status == map[] && pool == multiset{} && runs == map[]
      ensures running == 0 && !stopped
      ensures maxThreads == MaxThreadsFor(hw)
    {
      status := map[];
      pool := multiset{};
      running := 0;
      stopped := false;
      maxThreads := MaxThreadsFor(hw);
      runs := map[];
    }

    function GetTaskStatus(id: int): (r: Result<Status>)
      reads this
      ensures r.Ok? <==> id in status
      ensures r.Ok? ==> r.value == status[id]
      ensures r.Err? ==> r.error == UnknownTask
    {
      if id in status then Ok(status[id]) else Err(UnknownTask)
    }

    /** Whether the admission loop may dispatch one more worker; no free slot means exactly at capacity. */
    function IsFreeSlot(): (b: bool)
      reads this
      requires Valid()
      ensures b <==> running < maxThreads
      ensures !b ==> running == maxThreads
    {
      running < maxThreads
    }

    /** Overwrites a known id's status; an unknown id is an error and changes nothing. */
    method SetTaskStatus(id: int, s: Status) returns (o: Outcome)
      requires Valid()
      modifies this`status
      ensures Valid()
      ensures o.Fail? <==> id !in old(status)
      ensures o.Fail? ==> o.error == UnknownTask && status == old(status)
      ensures o.Pass? ==> status == old(status)[id := s]
      ensures status.Keys == old(status).Keys
    {
      if id !in status {
        o := Fail(UnknownTask);
        return;
      }
      status := status[id := s];
      o := Pass;
    }

    /**
     Submission: dropped while the stop flag is set; otherwise the id is
     (re)registered as InQueue before the task is pushed.
     */
    method AddTask(t: DeferredTask)
      requires Valid() && t.Valid()
      modifies this`status, this`pool, this`runs
      ensures Valid()
      ensures old(stopped) ==> status == old(status) && pool == old(pool) && runs == old(runs)
      ensures !old(stopped) ==> status == old(status)[t.id := InQueue]
      ensures !old(stopped) ==> pool == old(pool) + multiset{PendingTask(t.id, t.priority)}
      ensures !old(stopped) ==> runs == if t.id in old(runs) then old(runs) else old(runs)[t.id := 0]
      ensures old(status).Keys <= status.Keys
    {
      if stopped {
        return;
      }
      status := status[t.GetTaskId() := InQueue];
      if t.id !in runs {
        runs := runs[t.id := 0];
      }
      pool := pool + multiset{PendingTask(t.GetTaskId(), t.GetPriority())};
    }

    /**
     Cancels a task that is still queued; any other status is returned
     unchanged. The task stays in the pool until a worker drops it.
     */
    method CancelTask(id: int) returns (r: Result<Status>)
      requires Valid()
      modifies this`status
      ensures Valid()
      ensures id !in old(status) ==> r == Err(UnknownTask) && status == old(status)
      ensures id in old(status) ==> status == old(status)[id := AfterCancel(old(status)[id])]
      ensures id in old(status) ==> r == Ok(AfterCancel(old(status)[id]))
      ensures status.Keys == old(status).Keys
    {
      if id !in status {
        r := Err(UnknownTask);
        return;
      }
      if status[id] == InQueue {
        status := status[id := Cancelled];
      }
      r := Ok(status[id]);
    }

    /** One iteration of the admission loop (Process). */
    method ProcessStep() returns (o: DispatchOutcome)
      requires Valid()
      modifies this`running
      ensures Valid()
      ensures o == Exit <==> stopped
      ensures o == Idle <==> !stopped && |pool| == 0
      ensures o == Spawned <==> !stopped && |pool| > 0 && old(running) < maxThreads
      ensures running == if o == Spawned then old(running) + 1 else old(running)
    {
      if stopped {
        o := Exit;
        return;
      }
      var isEmpty := |pool| == 0;
      if isEmpty {
        o := Idle;
        return;
      }
      if IsFreeSlot() {
        running := running + 1;
        o := Spawned;
        return;
      }
      o := NoFreeSlot;
    }

    /** top() followed by pop() on a non-empty pool. */
    method PopTop() returns (t: PendingTask)
      requires Valid() && |pool| > 0
      modifies this`pool
      ensures Valid()
      ensures IsTop(old(pool), t)
      ensures pool == old(pool) - multiset{t}
      ensures t.id in status
    {
      TopExists(pool);
      t :| IsTop(pool, t);
      pool := pool - multiset{t};
    }

    /** The worker's run of a task it found InQueue: Processing, the payload, then Done. */
    method RunQueued(id: int)
      requires Valid() && id in status && status[id] == InQueue
      modifies this`status, this`runs
      ensures Valid()
      ensures status == old(status)[id := AfterWorker(old(status)[id])]
      ensures runs == old(runs)[id := old(runs)[id] + 1]
    {
      var _ := SetTaskStatus(id, Processing);
      runs := runs[id := runs[id] + 1];
      assert runs.Keys == status.Keys;
      var _ := SetTaskStatus(id, Done);
    }

    /**
     One dispatched worker (StartTask): pop a top task if there is one, run
     it only if it is still InQueue (Processing, then Done), and in every
     case give the slot back.
     */
    method StartTask() returns (taken: Option<PendingTask>)
      requires Valid() && running > 0
      modifies this`pool, this`status, this`runs, this`running
      ensures Valid()
      ensures running == old(running) - 1
      ensures taken.None? <==> |old(pool)| == 0
      ensures taken.None? ==> pool == old(pool) && status == old(status) && runs == old(runs)
      ensures taken.Some? ==> IsTop(old(pool), taken.value)
      ensures taken.Some? ==> pool == old(pool) - multiset{taken.value}
      ensures taken.Some? ==> taken.value.id in old(status)
      ensures taken.Some? ==>
        status == old(status)[taken.value.id := AfterWorker(old(status)[taken.value.id])]
      ensures taken.Some? && old(status)[taken.value.id] == InQueue ==>
        runs == old(runs)[taken.value.id := old(runs)[taken.value.id] + 1]
      ensures taken.Some? && old(status)[taken.value.id] != InQueue ==> runs == old(runs)
    {
      if |pool| == 0 {
        running := running - 1;
        taken := None;
        return;
      }
      var t := PopTop();
      var current := GetTaskStatus(t.id);
      if current == Ok(InQueue) {
        RunQueued(t.id);
      } else {
        assert status == old(status)[t.id := AfterWorker(old(status)[t.id])] by {
          assert AfterWorker(status[t.id]) == status[t.id];
        }
      }
      running := running - 1;
      taken := Some(t);
    }

    method Start()
      modifies this`stopped
      ensures !stopped
    {
      stopped := false;
    }

    /**
     Sets the stop flag and returns once no worker is in flight. While the
     caller waits, each in-flight worker takes its step; the loop below runs
     those steps one by one.
     */
    method Stop()
      requires Valid()
      modifies this`stopped, this`pool, this`status, this`runs, this`running
      ensures Valid()
      ensures stopped && running == 0
      ensures OnlyRunToDone(old(status), status)
      ensures RunsOnlyDone(old(status), old(runs), status, runs)
      ensures pool <= old(pool)
      ensures |pool| + old(running) >= |old(pool)|
      ensures OnlyClaimedChanged(old(status), old(runs), status, runs, old(pool) - pool)
      ensures ClaimedQueuedDone(old(status), status, old(pool) - pool)
      ensures old(running) == 0 ==> pool == old(pool) && status == old(status) && runs == old(runs)
    {
      stopped := true;
      DrainNothing(status, runs, pool);
      while running > 0
        invariant Valid() && stopped
        invariant running <= old(running)
        invariant DrainFrame(old(status), old(runs), old(pool), status, runs, pool)
        invariant |pool| + old(running) >= |old(pool)| + running
        invariant running == old(running) ==> pool == old(pool) && status == old(status) && runs == old(runs)
        decreases running
      {
        ghost var s0, r0, p0 := status, runs, pool;
        var taken := StartTask();
        DrainStep(old(status), old(runs), old(pool), s0, r0, p0, status, runs, pool, taken);
      }
    }

    /** The queue-clearing loop of ReleaseAllTasks: pop until empty, touching no status. */
    method ClearPool()
      requires Valid()
      modifies this`pool
      ensures Valid()
      ensures pool == multiset{}
    {
      while |pool| > 0
        invariant Valid()
        decreases |pool|
      {
        var _ := PopTop();
      }
    }

    /**
     Stop, then discard every unclaimed task without running it. `claimed`
     is what the drained workers took from the pool: at most one task per
     worker in flight, and only their ids may change.
     */
    method ReleaseAllTasks() returns (ghost claimed: multiset<PendingTask>)
      requires Valid()
      modifies this`stopped, this`pool, this`status, this`runs, this`running
      ensures Valid()
      ensures stopped && running == 0 && pool == multiset{}
      ensures claimed <= old(pool) && |claimed| <= old(running)
      ensures OnlyRunToDone(old(status), status)
      ensures RunsOnlyDone(old(status), old(runs), status, runs)
      ensures OnlyClaimedChanged(old(status), old(runs), status, runs, claimed)
      ensures ClaimedQueuedDone(old(status), status, claimed)
      ensures old(running) == 0 ==> claimed == multiset{} && status == old(status) && runs == old(runs)
    {
      Stop();
      claimed := old(pool) - pool;
      ClearPool();
    }
  }
}
