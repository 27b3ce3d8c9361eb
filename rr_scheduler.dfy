/** `RRScheduler`: a FIFO queue with time-slice bookkeeping. Each dequeue hands
    out the head; a head with more remaining time than one slice goes back to
    the tail with one slice subtracted. */
module RrQueue {
  import opened Tasks

  const DefaultTimeSlice: int := 5

  /** The copy handed out when `head` is served with slice `slice`. */
  function Served(head: Task, slice: int): (t: Task)
    ensures t.id == head.id && t.estimatedTime == head.estimatedTime && t.weight == head.weight
    ensures head.remainingTime > slice ==> t.remainingTime + slice == head.remainingTime
    ensures head.remainingTime <= slice ==> t.remainingTime == 0
  {
    if head.remainingTime > slice then head.(remainingTime := head.remainingTime - slice)
    else head.(remainingTime := 0)
  }

  /** Whether the served copy goes back to the tail. */
  predicate Unfinished(head: Task, slice: int)
  {
    head.remainingTime > slice
  }

  class RrScheduler {
    var timeSlice: int
    /** `queue_`, front first. */
    var queue: seq<Task>

    /** `RRScheduler(int timeSlice = 5)`. */
    constructor (timeSlice: int := DefaultTimeSlice)
      ensures this.timeSlice == timeSlice && queue == []
    {
      this.timeSlice := timeSlice;
      queue := [];
    }

    function CurrentAlgorithm(): (name: string)
      ensures name == Rr.Name()
    {
      "RR"
    }

    /** Any integer is accepted, including zero and negative slices. */
    method SetTimeSlice(ts: int)
      modifies this
      ensures timeSlice == ts && queue == old(queue)
    {
      timeSlice := ts;
    }

    /** True exactly when no task is queued. */
    predicate Empty()
      reads this
      ensures Empty() <==> multiset(queue) == multiset{}
    {
      |queue| == 0
    }

    method Enqueue(t: Task)
      modifies this
      ensures queue == old(queue) + [t] && timeSlice == old(timeSlice)
    {
      queue := queue + [t];
    }

    /** RR does not override the two-argument form; the base class forwards
        it, dropping the queue length. */
    method EnqueueWithLength(t: Task, queueLen: nat)
      modifies this
      ensures queue == old(queue) + [t] && timeSlice == old(timeSlice)
    {
      Enqueue(t);
    }

    /** The blocking wait becomes the precondition that a task is queued. */
    method Dequeue() returns (t: Task)
      requires !Empty()
      modifies this
      ensures timeSlice == old(timeSlice)
      ensures t == Served(old(queue)[0], timeSlice)
      ensures Unfinished(old(queue)[0], timeSlice) ==> queue == old(queue)[1..] + [t]
      ensures !Unfinished(old(queue)[0], timeSlice) ==> queue == old(queue)[1..]
    {
      t := queue[0];
      queue := queue[1..];
      if t.remainingTime > timeSlice {
        t := t.(remainingTime := t.remainingTime - timeSlice);
        queue := queue + [t];
      } else {
        t := t.(remainingTime := 0);
      }
    }
  }

  /** With a slice T >= 1, a task alone in the queue with remaining time
      R >= 1 is handed out k times before it leaves the queue, where k is the
      ceiling of R / T, i.e. (k - 1) * T < R <= k * T: every
      copy carries its id, the last one reports remaining time 0 and the
      earlier ones a positive remainder. */
  method LoneTaskRounds(t: Task, slice: int) returns (served: seq<Task>)
    requires slice >= 1 && t.remainingTime >= 1
    ensures (|served| - 1) * slice < t.remainingTime <= |served| * slice
    ensures forall i :: 0 <= i < |served| ==> served[i].id == t.id
    ensures served[|served| - 1].remainingTime == 0
    ensures forall i :: 0 <= i < |served| - 1 ==> served[i].remainingTime > 0
  {
    var s := new RrScheduler(slice);
    s.Enqueue(t);
    served := [];
    var consumed := 0;
    while !s.Empty()
      invariant s.timeSlice == slice
      invariant consumed == |served| * slice
      invariant |s.queue| <= 1
      invariant s.queue != [] ==> s.queue == [t.(remainingTime := t.remainingTime - consumed)]
      invariant s.queue != [] ==> consumed < t.remainingTime
      invariant s.queue == [] ==> |served| > 0 && consumed - slice < t.remainingTime <= consumed
      invariant s.queue == [] ==> served[|served| - 1].remainingTime == 0
      invariant forall i :: 0 <= i < |served| ==> served[i].id == t.id
      invariant forall i :: 0 <= i < |served| - 1 ==> served[i].remainingTime > 0
      invariant s.queue != [] && |served| > 0 ==> served[|served| - 1].remainingTime > 0
      decreases t.remainingTime - consumed
    {
      var u := s.Dequeue();
      served := served + [u];
      consumed := consumed + slice;
    }
  }

  /** `setTimeSlice` accepts any integer; with a slice of zero or less, a task
      whose remaining time exceeds the slice is never finished: it is handed
      out with no less remaining time and put back. */
  method NonPositiveSliceMakesNoProgress(t: Task, slice: int) returns (u: Task, stillQueued: bool)
    requires slice <= 0 && t.remainingTime > slice
    ensures stillQueued
    ensures u.id == t.id && u.remainingTime >= t.remainingTime
  {
    var s := new RrScheduler();
    s.SetTimeSlice(slice);
    s.Enqueue(t);
    u := s.Dequeue();
    stillQueued := !s.Empty();
    assert s.queue == [u];
  }
}
