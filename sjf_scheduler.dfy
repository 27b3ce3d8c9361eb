/** `SJFScheduler`: a min-priority queue on the estimated time. */
module SjfQueue {
  import opened Tasks
  import opened HeapOrder

  /** `Compare`: the heap puts the smaller `estimatedTime` on top. */
  function EstimateKey(t: Task): real
  {
    t.estimatedTime as real
  }

  class SjfScheduler {
    /** `pq_`, as the multiset of tasks it holds. */
    var pool: multiset<Task>

    constructor ()
      ensures pool == multiset{}
    {
      pool := multiset{};
    }

    function CurrentAlgorithm(): (name: string)
      ensures name == Sjf.Name()
    {
      "SJF"
    }

    /** True exactly when no task is queued. */
    predicate Empty()
      reads this
      ensures Empty() <==> |pool| == 0
    {
      pool == multiset{}
    }

    method Enqueue(t: Task)
      modifies this
      ensures pool == old(pool) + multiset{t}
    {
      EnqueueWithLength(t, 0);
    }

    /** The queue length hint is ignored. */
    method EnqueueWithLength(t: Task, queueLen: nat)
      modifies this
      ensures pool == old(pool) + multiset{t}
    {
      pool := pool + multiset{t};
    }

    /** Removes and returns one task of minimal estimate; which one among
        equal estimates is not determined. */
    method Dequeue() returns (t: Task)
      requires !Empty()
      modifies this
      ensures IsTop(t, old(pool), EstimateKey)
      ensures forall u :: u in old(pool) ==> t.estimatedTime <= u.estimatedTime
      ensures pool == old(pool) - multiset{t}
    {
      TopExists(pool, EstimateKey);
      t :| IsTop(t, pool, EstimateKey);
      pool := pool - multiset{t};
    }
  }

  /** Enqueueing a batch in any order and draining the scheduler returns the
      same tasks (a permutation), by non-decreasing estimate: a task with a
      smaller estimate never comes out after one with a larger estimate. */
  method EnqueueThenDrain(ts: seq<Task>) returns (out: seq<Task>)
    ensures multiset(out) == multiset(ts)
    ensures SortedBy(out, EstimateKey)
  {
    var s := new SjfScheduler();
    for i := 0 to |ts|
      invariant s.pool == multiset(ts[..i])
    {
      assert ts[..i + 1] == ts[..i] + [ts[i]];
      s.Enqueue(ts[i]);
    }
    assert ts[..|ts|] == ts;
    out := [];
    while !s.Empty()
      invariant multiset(out) + s.pool == multiset(ts)
      invariant Drained(out, s.pool, EstimateKey)
      decreases |s.pool|
    {
      ghost var before := s.pool;
      var t := s.Dequeue();
      DrainStep(out, before, t, EstimateKey);
      out := out + [t];
    }
  }
}
