/**
 The executor's pool of pending tasks: a max-priority queue ordered by the
 Comparer alone. Since the comparer has no secondary key, the pool is a
 multiset and "top" is any element no other element compares above.
 */
module TaskQueue {

  /** What the pool holds of a task: its id and the priority it had when queued. */
  datatype PendingTask = PendingTask(id: int, priority: int)

  /** Comparer::operator(): lhs orders below rhs when its priority is lower. */
  predicate Less(lhs: PendingTask, rhs: PendingTask) {
    lhs.priority < rhs.priority
  }

  /** Two tasks the comparer cannot tell apart. */
  predicate Equivalent(a: PendingTask, b: PendingTask) {
    !Less(a, b) && !Less(b, a)
  }

  /**
   Comparer is a strict weak ordering, which is what a heap ordered by it
   relies on; equivalence is exactly "same priority".
   */
  lemma ComparerIsStrictWeakOrder(a: PendingTask, b: PendingTask, c: PendingTask)
    ensures !Less(a, a)
    ensures Less(a, b) && Less(b, c) ==> Less(a, c)
    ensures Equivalent(a, b) && Equivalent(b, c) ==> Equivalent(a, c)
    ensures Equivalent(a, b) <==> a.priority == b.priority
  {
  }

  /** `t` may be what top() returns: it is queued and nothing queued is greater. */
  predicate IsTop(pool: multiset<PendingTask>, t: PendingTask) {
    t in pool && forall u | u in pool :: !Less(t, u)
  }

  /** A non-empty pool has a top element. */
  lemma {:induction false} TopExists(pool: multiset<PendingTask>)
    requires |pool| > 0
    ensures exists t :: IsTop(pool, t)
    decreases |pool|
  {
    var x :| x in pool;
    var rest := pool - multiset{x};
    if |rest| == 0 {
      assert pool == multiset{x} by {
        assert pool == rest + multiset{x};
      }
      assert IsTop(pool, x);
    } else {
      TopExists(rest);
      var y :| IsTop(rest, y);
      assert pool == rest + multiset{x};
      if x.priority <= y.priority {
        assert IsTop(pool, y);
      } else {
        assert IsTop(pool, x);
      }
    }
  }

  /** All tops of a pool have the same priority: the maximum. */
  lemma TopsAreEquivalent(pool: multiset<PendingTask>, t: PendingTask, u: PendingTask)
    requires IsTop(pool, t) && IsTop(pool, u)
    ensures t.priority == u.priority
  {
  }

  /**
   Popping twice without pushing in between yields non-increasing
   priorities, and the first pop is at least every task left behind.
   */
  lemma PopsNonIncreasing(pool: multiset<PendingTask>, t: PendingTask, u: PendingTask)
    requires IsTop(pool, t)
    requires IsTop(pool - multiset{t}, u)
    ensures u.priority <= t.priority
    ensures forall v | v in pool - multiset{t} :: v.priority <= t.priority
  {
  }

  /** When priorities are distinct, top() is determined: the maximum. */
  lemma TopUniqueWhenPrioritiesDistinct(pool: multiset<PendingTask>, t: PendingTask, u: PendingTask)
    requires IsTop(pool, t) && u in pool && u != t
    requires forall a, b | a in pool && b in pool && a != b :: a.priority != b.priority
    ensures u.priority < t.priority
  {
  }
}
