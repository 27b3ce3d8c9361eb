/** `FIFOScheduler`: a plain queue; arrival order is service order. */
module FifoQueue {
  import opened Tasks

  class FifoScheduler {
    /** `queue_`, front first. */
    var queue: seq<Task>

    constructor ()
      ensures queue == []
    {
      queue := [];
    }

    function CurrentAlgorithm(): (name: string)
      ensures name == Fifo.Name()
    {
      "FIFO"
    }

    /** True exactly when no task is queued. */
    predicate Empty()
      reads this
      ensures Empty() <==> multiset(queue) == multiset{}
    {
      |queue| == 0
    }

    /** The one-argument form forwards with a queue length of 0. */
    method Enqueue(t: Task)
      modifies this
      ensures queue == old(queue) + [t]
    {
      EnqueueWithLength(t, 0);
    }

    /** The queue length hint is ignored: the task goes to the tail. */
    method EnqueueWithLength(t: Task, queueLen: nat)
      modifies this
      ensures queue == old(queue) + [t]
    {
      queue := queue + [t];
    }

    /** The blocking wait becomes the precondition that a task is queued. */
    method Dequeue() returns (t: Task)
      requires !Empty()
      modifies this
      ensures t == old(queue)[0] && queue == old(queue)[1..]
    {
      t := queue[0];
      queue := queue[1..];
    }
  }

  /** N enqueues into a fresh FIFO followed by N dequeues return the tasks in
      enqueue order, and leave the queue empty. */
  method EnqueueThenDrain(ts: seq<Task>) returns (out: seq<Task>)
    ensures out == ts
  {
    var s := new FifoScheduler();
    for i := 0 to |ts|
      invariant s.queue == ts[..i]
    {
      s.Enqueue(ts[i]);
    }
    assert ts[..|ts|] == ts;
    out := [];
    while !s.Empty()
      invariant out + s.queue == ts
      decreases |s.queue|
    {
      var t := s.Dequeue();
      out := out + [t];
    }
  }
}
