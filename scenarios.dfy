/**
 Client runs of the executor, some on a fresh executor and some over any
 valid one: each drives it through public operations and worker/admission
 steps, and states what a caller observes at the end.
 */
module Scenarios {
  import opened Tasks
  import opened TaskQueue
  import opened Executor

  /** The first two tasks constructed get ids 1 and 2. */
  method FreshIds() returns (first: int, second: int)
    ensures first == 1 && second == 2
  {
    var counter := new IdCounter();
    var a := new DeferredTask(counter);
    var b := new DeferredTask(counter);
    first, second := a.GetTaskId(), b.GetTaskId();
  }

  /** Cancelling twice gives the same answer both times. */
  method CancelTwice(e: DeferredTasksExecutor, id: int) returns (first: Result<Status>, second: Result<Status>)
    requires e.Valid()
    modifies e`status
    ensures e.Valid()
    ensures first == second
    ensures id !in old(e.status) <==> first == Err(UnknownTask)
    ensures id in old(e.status) && old(e.status)[id] == InQueue ==> first == Ok(Cancelled)
    ensures e.status.Keys == old(e.status).Keys
  {
    first := e.CancelTask(id);
    second := e.CancelTask(id);
  }

  /**
   A task cancelled before the admission loop starts is never run: the loop
   dispatches a worker for it, and Stop drains that worker, which drops it.
   */
  method CancelBeforeStart() returns (cancelled: Result<Status>, final: Result<Status>, ghost runCount: nat)
    ensures cancelled == Ok(Cancelled) && final == Ok(Cancelled)
    ensures runCount == 0
  {
    var counter := new IdCounter();
    var t := new DeferredTask(counter);
    var e := new DeferredTasksExecutor(4);
    e.AddTask(t);
    var queued := PendingTask(t.id, MinPriority);
    assert e.pool == multiset{queued};
    cancelled := e.CancelTask(t.id);
    assert e.status[t.id] == Cancelled;
    e.Start();
    var o := e.ProcessStep();
    assert o == Spawned && e.running == 1;
    e.Stop();
    final := e.GetTaskStatus(t.id);
    runCount := e.runs[t.id];
  }

  /** Constructs a task, sets its priority and submits it to a running executor. */
  method Submit(e: DeferredTasksExecutor, counter: IdCounter, p: int) returns (id: int)
    requires e.Valid() && !e.stopped && counter.Valid()
    requires e.status.Keys <= counter.issued
    modifies e`status, e`pool, e`runs, counter
    ensures e.Valid() && counter.Valid()
    ensures e.status.Keys <= counter.issued
    ensures id == old(counter.last) + 1 && id !in old(e.status)
    ensures e.status == old(e.status)[id := InQueue]
    ensures e.runs == old(e.runs)[id := 0]
    ensures e.pool == old(e.pool) + multiset{PendingTask(id, Clamp(p))}
  {
    var t := new DeferredTask(counter);
    t.SetPriority(p);
    e.AddTask(t);
    id := t.id;
  }

  /** One admission-loop iteration that spawns a worker, followed by that worker's step. */
  method DispatchAndRun(e: DeferredTasksExecutor) returns (popped: PendingTask)
    requires e.Valid() && !e.stopped && e.running == 0 && e.maxThreads >= 1 && |e.pool| > 0
    modifies e`pool, e`status, e`runs, e`running
    ensures e.Valid() && !e.stopped && e.running == 0 && e.maxThreads == old(e.maxThreads)
    ensures IsTop(old(e.pool), popped) && e.pool == old(e.pool) - multiset{popped}
  {
    var o := e.ProcessStep();
    assert o == Spawned;
    var taken := e.StartTask();
    popped := taken.value;
  }

  /** The pools of the priority scenario and their tops, one pop at a time. */
  lemma ThreeTaskTops(pa: PendingTask, pb: PendingTask, pc: PendingTask)
    requires pa.priority == 10 && pb.priority == 90 && pc.priority == 50
    ensures forall t | IsTop(multiset{pa, pb, pc}, t) :: t == pb
    ensures multiset{pa, pb, pc} - multiset{pb} == multiset{pa, pc}
    ensures forall t | IsTop(multiset{pa, pc}, t) :: t == pc
    ensures multiset{pa, pc} - multiset{pc} == multiset{pa}
    ensures forall t | IsTop(multiset{pa}, t) :: t == pa
  {
  }

  /** Submits tasks of priority 10, 90 and 50, in that order. */
  method SubmitThree(e: DeferredTasksExecutor, counter: IdCounter) returns (pa: PendingTask, pb: PendingTask, pc: PendingTask)
    requires e.Valid() && !e.stopped && counter.Valid() && e.status.Keys <= counter.issued
    modifies e`status, e`pool, e`runs, counter
    ensures e.Valid()
    ensures e.pool == old(e.pool) + multiset{pa, pb, pc}
    ensures pa.priority == 10 && pb.priority == 90 && pc.priority == 50
  {
    var ida := Submit(e, counter, 10);
    pa := PendingTask(ida, 10);
    var idb := Submit(e, counter, 90);
    pb := PendingTask(idb, 90);
    var idc := Submit(e, counter, 50);
    pc := PendingTask(idc, 50);
  }

  /** With one slot, tasks of priority 10, 90 and 50 run as 90, 50, 10. */
  method PriorityOrder() returns (order: seq<int>)
    ensures order == [90, 50, 10]
  {
    var counter := new IdCounter();
    var e := new DeferredTasksExecutor(1);
    var pa, pb, pc := SubmitThree(e, counter);
    assert e.pool == multiset{pa, pb, pc};
    e.Start();
    ThreeTaskTops(pa, pb, pc);
    var first := DispatchAndRun(e);
    var second := DispatchAndRun(e);
    var third := DispatchAndRun(e);
    order := [first.priority, second.priority, third.priority];
  }

  /** ReleaseAllTasks on five queued, never started tasks runs none and keeps their status. */
  method ReleaseAllKeepsStatus() returns (statuses: seq<Result<Status>>, ghost runCounts: seq<nat>)
    ensures statuses == [Ok(InQueue), Ok(InQueue), Ok(InQueue), Ok(InQueue), Ok(InQueue)]
    ensures runCounts == [0, 0, 0, 0, 0]
  {
    var counter := new IdCounter();
    var e := new DeferredTasksExecutor(8);
    var ids := [];
    var i := 0;
    while i < 5
      invariant 0 <= i <= 5 && |ids| == i
      invariant e.Valid() && !e.stopped && e.running == 0 && counter.Valid()
      invariant e.status.Keys <= counter.issued
      invariant forall k | 0 <= k < i :: ids[k] in counter.issued
      invariant forall k | 0 <= k < i :: ids[k] in e.status && e.status[ids[k]] == InQueue && e.runs[ids[k]] == 0
    {
      var t := new DeferredTask(counter);
      assert forall k | 0 <= k < i :: ids[k] != t.id;
      e.AddTask(t);
      ids := ids + [t.id];
      i := i + 1;
    }
    ghost var claimed := e.ReleaseAllTasks();
    statuses := [];
    runCounts := [];
    i := 0;
    while i < 5
      invariant 0 <= i <= 5 && |statuses| == i && |runCounts| == i
      invariant forall k | 0 <= k < i :: statuses[k] == Ok(InQueue) && runCounts[k] == 0
    {
      statuses := statuses + [e.GetTaskStatus(ids[i])];
      runCounts := runCounts + [e.runs[ids[i]]];
      i := i + 1;
    }
  }

  /** With at most one task claimed, at most one of two unrun ids ran. */
  lemma OneClaimRunsOne(s0: map<int, Status>, r0: map<int, nat>, s1: map<int, Status>, r1: map<int, nat>,
                        claimed: multiset<PendingTask>, a: int, b: int)
    requires a != b && a in s0 && b in s0 && s0.Keys == s1.Keys == r0.Keys
    requires r0[a] == 0 && r0[b] == 0 && |claimed| <= 1
    requires RunsOnlyDone(s0, r0, s1, r1)
    requires OnlyClaimedChanged(s0, r0, s1, r1, claimed)
    ensures r1[a] + r1[b] <= 1
  {
    if claimed == multiset{} {
      assert PoolIds(claimed) == {};
    } else {
      var c :| c in claimed;
      assert |claimed - multiset{c}| == 0;
      assert claimed == multiset{c};
      assert PoolIds(claimed) == {c.id};
    }
  }

  /**
   ReleaseAllTasks with one worker in flight and two tasks queued: that
   worker claims at most one of them, so at most one task ever runs.
   */
  method ReleaseWithWorkerInFlight() returns (ghost runsA: nat, ghost runsB: nat)
    ensures runsA + runsB <= 1
  {
    var counter := new IdCounter();
    var e := new DeferredTasksExecutor(4);
    var idA := Submit(e, counter, 10);
    var idB := Submit(e, counter, 20);
    assert e.runs[idA] == 0 && e.runs[idB] == 0;
    var o := e.ProcessStep();
    assert o == Spawned && e.running == 1;
    ghost var s0, r0 := e.status, e.runs;
    ghost var claimed := e.ReleaseAllTasks();
    OneClaimRunsOne(s0, r0, e.status, e.runs, claimed, idA, idB);
    runsA, runsB := e.runs[idA], e.runs[idB];
  }

  /** A submission after Stop is dropped: the id stays unknown. */
  method SubmitAfterStop() returns (r: Result<Status>)
    ensures r == Err(UnknownTask)
  {
    var counter := new IdCounter();
    var t := new DeferredTask(counter);
    var e := new DeferredTasksExecutor(4);
    e.Stop();
    e.AddTask(t);
    r := e.GetTaskStatus(t.id);
  }

  /** When no hardware threads are reported there is no slot, so nothing is ever dispatched. */
  method NoSlotWithoutHardware() returns (o: DispatchOutcome)
    ensures o == NoFreeSlot
  {
    var counter := new IdCounter();
    var t := new DeferredTask(counter);
    var e := new DeferredTasksExecutor(0);
    e.AddTask(t);
    e.Start();
    o := e.ProcessStep();
  }
}
