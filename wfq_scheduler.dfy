/** `WFQScheduler`: a min-priority queue on `estimatedTime / weight`. The key
    is computed from the task alone; there is no virtual clock and no
    per-flow state. */
module WfqQueue {
  import opened Tasks
  import opened HeapOrder

  /** `Compare`: the estimate divided by the weight, where a weight of zero
      or less counts as 1. */
  function FinishKey(t: Task): (r: real)
    ensures t.weight > 0 ==> r * (t.weight as real) == t.estimatedTime as real
    ensures t.weight <= 0 ==> r == t.estimatedTime as real
  {
    var w := if t.weight > 0 then t.weight as real else 1.0;
    t.estimatedTime as real / w
  }

  class WfqScheduler {
    /** `pq_`, as the multiset of tasks it holds. */
    var pool: multiset<Task>

    constructor ()
      ensures pool == multiset{}
    {
      pool := multiset{};
    }

    function CurrentAlgorithm(): (name: string)
      ensures name == Wfq.Name()
    {
      "WFQ"
    }

    /** True exactly when no task is queued. */
    predicate Empty()
      reads this
      ensures Empty() <==> |pool| == 0
    {
      pool == multiset{}
    }

    method Enqueue(t: Task)
      modifies this
      ensures pool == old(pool) + multiset{t}
    {
      EnqueueWithLength(t, 0);
    }

    /** The queue length hint is ignored. */
    method EnqueueWithLength(t: Task, queueLen: nat)
      modifies this
      ensures pool == old(pool) + multiset{t}
    {
      pool := pool + multiset{t};
    }

    /** The inherited `updateWeights` does nothing. */
    method UpdateWeights(newWeight: int)
      ensures pool == old(pool)
    {
    }

    /** Removes and returns one task of minimal key; which one among equal
        keys is not determined. */
    method Dequeue() returns (t: Task)
      requires !Empty()
      modifies this
      ensures IsTop(t, old(pool), FinishKey)
      ensures pool == old(pool) - multiset{t}
    {
      TopExists(pool, FinishKey);
      t :| IsTop(t, pool, FinishKey);
      pool := pool - multiset{t};
    }
  }

  /** Enqueueing a batch in any order and draining the scheduler returns the
      same tasks by non-decreasing key. Because the key depends on the task
      alone, the relative order of two queued tasks is fixed at enqueue time. */
  method EnqueueThenDrain(ts: seq<Task>) returns (out: seq<Task>)
    ensures multiset(out) == multiset(ts)
    ensures SortedBy(out, FinishKey)
  {
    var s := new WfqScheduler();
    for i := 0 to |ts|
      invariant s.pool == multiset(ts[..i])
    {
      assert ts[..i + 1] == ts[..i] + [ts[i]];
      s.Enqueue(ts[i]);
    }
    assert ts[..|ts|] == ts;
    out := [];
    while !s.Empty()
      invariant multiset(out) + s.pool == multiset(ts)
      invariant Drained(out, s.pool, FinishKey)
      decreases |s.pool|
    {
      ghost var before := s.pool;
      var t := s.Dequeue();
      DrainStep(out, before, t, FinishKey);
      out := out + [t];
    }
  }
}
