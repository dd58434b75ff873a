/**
 A deferred task: a unit of work with a priority clamped into
 [MinPriority, MaxPriority] and an id drawn from a process-wide counter.
 The payload itself is not modelled; the executor counts its runs instead.
 */
module Tasks {

  /** Lowest priority, also the priority of a freshly constructed task. */
  const MinPriority: int := 0
  /** Highest priority. */
  const MaxPriority: int := 100

  predicate InPriorityRange(p: int) {
    MinPriority <= p <= MaxPriority
  }

  /** The clamping done by SetPriority. */
  function Clamp(p: int): (r: int)
    ensures InPriorityRange(r)
    ensures InPriorityRange(p) ==> r == p
    ensures p < MinPriority ==> r == MinPriority
    ensures p > MaxPriority ==> r == MaxPriority
  {
    if p < MinPriority then MinPriority
    else if p > MaxPriority then MaxPriority
    else p
  }

  lemma ClampIdempotent(p: int)
    ensures Clamp(Clamp(p)) == Clamp(p)
  {
  }

  lemma ClampMonotone(p: int, q: int)
    requires p <= q
    ensures Clamp(p) <= Clamp(q)
  {
  }

  /**
   The static counter behind GenerateUniqueId. `issued` is the set of ids
   handed out so far; it is exactly 1..last.
   */
  class IdCounter {
    var last: int
    ghost var issued: set<int>

    ghost predicate Valid()
      reads this
    {
      && 0 <= last
      && forall x :: x in issued <==> 1 <= x <= last
    }

    constructor ()
      ensures Valid() && last == 0 && issued == {}
    {
      last := 0;
      issued := {};
    }

    /** Pre-increment of the counter: returns 1, 2, 3, ... */
    method GenerateUniqueId() returns (id: int)
      requires Valid()
      modifies this
      ensures Valid()
      ensures id == old(last) + 1 && last == id
      ensures id !in old(issued)
      ensures forall x :: x in old(issued) ==> x < id
      ensures issued == old(issued) + {id}
    {
      last := last + 1;
      id := last;
      issued := issued + {id};
    }
  }

  class DeferredTask {
    const id: int
    var priority: int

    ghost predicate Valid()
      reads this
    {
      1 <= id && InPriorityRange(priority)
    }

    /** A new task gets the lowest priority and a fresh id from `counter`. */
    constructor (counter: IdCounter)
      requires counter.Valid()
      modifies counter
      ensures Valid()
      ensures priority == MinPriority
      ensures id == old(counter.last) + 1 && counter.last == id
      ensures id !in old(counter.issued)
      ensures counter.Valid() && counter.issued == old(counter.issued) + {id}
    {
      var uid := counter.GenerateUniqueId();
      id := uid;
      priority := MinPriority;
    }

    /** Stores the clamped priority; the id is a constant and cannot change. */
    method SetPriority(p: int)
      requires Valid()
      modifies this
      ensures Valid()
      ensures priority == Clamp(p)
      ensures InPriorityRange(p) ==> priority == p
    {
      priority := Clamp(p);
    }

    function GetPriority(): (p: int)
      reads this
      requires Valid()
      ensures InPriorityRange(p)
      ensures p == priority
    {
      priority
    }

    function GetTaskId(): (i: int)
      reads this
      requires Valid()
      ensures 1 <= i
      ensures i == id
    {
      id
    }
  }
}
