/** The polymorphic `Scheduler*`: a reference to one of the four disciplines,
    tagged by which one it is. `State` reads the discipline's queue as a value,
    and `Served` says, per discipline, what one dequeue does to that value. */
module Scheduling {
  import opened Tasks
  import opened HeapOrder
  import FifoQueue
  import SjfQueue
  import RrQueue
  import WfqQueue

  /** A scheduler's queue as a value: an ordered queue (FIFO), an ordered
      queue with its time slice (RR), or a pool of tasks (SJF, WFQ). */
  datatype Snapshot =
    | Line(items: seq<Task>)
    | Round(items: seq<Task>, slice: int)
    | Pool(pool: multiset<Task>)
  {
    /** The tasks held, regardless of order. */
    function Contents(): (m: multiset<Task>)
      ensures Line? || Round? ==> m == multiset(items)
      ensures Pool? ==> m == pool
    {
      match this
      case Line(items) => multiset(items)
      case Round(items, _) => multiset(items)
      case Pool(pool) => pool
    }

    /** The snapshot after enqueueing `t`: the tail of a queue, or one more in
        the pool. */
    function With(t: Task): (s: Snapshot)
      ensures s.Contents() == Contents() + multiset{t}
      ensures Line? ==> s == Line(items + [t])
      ensures Round? ==> s == Round(items + [t], slice)
      ensures Pool? ==> s == Pool(pool + multiset{t})
    {
      match this
      case Line(items) => Line(items + [t])
      case Round(items, slice) => Round(items + [t], slice)
      case Pool(pool) => Pool(pool + multiset{t})
    }
  }

  /** The snapshot of a freshly made scheduler of kind `kind`. */
  function Initial(kind: Discipline, slice: int): (s: Snapshot)
    ensures s.Contents() == multiset{}
    ensures Shaped(kind, s)
    ensures kind == Rr ==> s == Round([], slice)
  {
    match kind
    case Fifo => Line([])
    case Sjf => Pool(multiset{})
    case Rr => Round([], slice)
    case Wfq => Pool(multiset{})
  }

  /** The snapshot shape each discipline keeps. */
  predicate Shaped(kind: Discipline, s: Snapshot)
  {
    match kind
    case Fifo => s.Line?
    case Rr => s.Round?
    case Sjf => s.Pool?
    case Wfq => s.Pool?
  }

  /** One dequeue on a scheduler of kind `kind` hands out `t` and turns
      `before` into `after`. */
  ghost predicate Served(kind: Discipline, before: Snapshot, t: Task, after: Snapshot)
  {
    match kind
    case Fifo =>
      before.Line? && |before.items| > 0 && t == before.items[0] && after == Line(before.items[1..])
    case Rr =>
      before.Round? && |before.items| > 0
      && t == RrQueue.Served(before.items[0], before.slice)
      && after == Round(before.items[1..] + (if RrQueue.Unfinished(before.items[0], before.slice) then [t] else []), before.slice)
    case Sjf =>
      before.Pool? && IsTop(t, before.pool, SjfQueue.EstimateKey) && after == Pool(before.pool - multiset{t})
    case Wfq =>
      before.Pool? && IsTop(t, before.pool, WfqQueue.FinishKey) && after == Pool(before.pool - multiset{t})
  }

  /** A task handed out by a FIFO, SJF or WFQ scheduler leaves it: the
      contents lose exactly that task. */
  lemma ServedRemoves(kind: Discipline, before: Snapshot, t: Task, after: Snapshot)
    requires kind != Rr && Served(kind, before, t, after)
    ensures t in before.Contents()
    ensures after.Contents() == before.Contents() - multiset{t}
  {
    if kind == Fifo {
      assert before.items == [t] + before.items[1..];
    }
  }

  /** An RR dequeue removes the head and, when the head outlives its slice,
      puts back the served copy: the number of tasks held drops by one
      exactly when the head finishes. */
  lemma RoundServedContents(before: Snapshot, t: Task, after: Snapshot)
    requires Served(Rr, before, t, after)
    ensures t.id == before.items[0].id
    ensures after.Contents() == before.Contents() - multiset{before.items[0]}
      + (if RrQueue.Unfinished(before.items[0], before.slice) then multiset{t} else multiset{})
    ensures t.remainingTime == 0 <==> !RrQueue.Unfinished(before.items[0], before.slice)
    ensures |after.Contents()| + (if t.remainingTime == 0 then 1 else 0) == |before.Contents()|
  {
    assert before.items == [before.items[0]] + before.items[1..];
  }

  datatype Instance =
    | FifoInst(fifo: FifoQueue.FifoScheduler)
    | SjfInst(sjf: SjfQueue.SjfScheduler)
    | RrInst(rr: RrQueue.RrScheduler)
    | WfqInst(wfq: WfqQueue.WfqScheduler)
  {
    /** The object the reference points to. */
    function Obj(): object
    {
      match this
      case FifoInst(s) => s
      case SjfInst(s) => s
      case RrInst(s) => s
      case WfqInst(s) => s
    }

    function Kind(): Discipline
    {
      match this
      case FifoInst(_) => Fifo
      case SjfInst(_) => Sjf
      case RrInst(_) => Rr
      case WfqInst(_) => Wfq
    }

    /** The virtual `currentAlgorithm()`. */
    function CurrentAlgorithm(): (name: string)
      ensures name == Kind().Name()
    {
      match this
      case FifoInst(s) => s.CurrentAlgorithm()
      case SjfInst(s) => s.CurrentAlgorithm()
      case RrInst(s) => s.CurrentAlgorithm()
      case WfqInst(s) => s.CurrentAlgorithm()
    }

    function State(): (s: Snapshot)
      reads Obj()
      ensures Shaped(Kind(), s)
    {
      match this
      case FifoInst(q) => Line(q.queue)
      case SjfInst(q) => Pool(q.pool)
      case RrInst(q) => Round(q.queue, q.timeSlice)
      case WfqInst(q) => Pool(q.pool)
    }

    /** The virtual `empty()`: true exactly when nothing is held. */
    predicate Empty()
      reads Obj()
      ensures Empty() <==> State().Contents() == multiset{}
    {
      match this
      case FifoInst(q) => q.Empty()
      case SjfInst(q) => q.Empty()
      case RrInst(q) => q.Empty()
      case WfqInst(q) => q.Empty()
    }

    /** The virtual two-argument `enqueue`. */
    method EnqueueWithLength(t: Task, queueLen: nat)
      modifies Obj()
      ensures State() == old(State()).With(t)
    {
      match this
      case FifoInst(q) => q.EnqueueWithLength(t, queueLen);
      case SjfInst(q) => q.EnqueueWithLength(t, queueLen);
      case RrInst(q) => q.EnqueueWithLength(t, queueLen);
      case WfqInst(q) => q.EnqueueWithLength(t, queueLen);
    }

    /** The virtual one-argument `enqueue`. */
    method Enqueue(t: Task)
      modifies Obj()
      ensures State() == old(State()).With(t)
    {
      match this
      case FifoInst(q) => q.Enqueue(t);
      case SjfInst(q) => q.Enqueue(t);
      case RrInst(q) => q.Enqueue(t);
      case WfqInst(q) => q.Enqueue(t);
    }

    /** The virtual `dequeue()`, each discipline by its own rule. */
    method Dequeue() returns (t: Task)
      requires !Empty()
      modifies Obj()
      ensures Served(Kind(), old(State()), t, State())
    {
      match this
      case FifoInst(q) => t := q.Dequeue();
      case SjfInst(q) => t := q.Dequeue();
      case RrInst(q) => t := q.Dequeue();
      case WfqInst(q) => t := q.Dequeue();
    }

    /** The virtual `setTimeSlice`: only RR keeps a slice; the base class
        ignores it. */
    method SetTimeSlice(ts: int)
      modifies Obj()
      ensures Kind() == Rr ==> State() == Round(old(State()).items, ts)
      ensures Kind() != Rr ==> State() == old(State())
    {
      match this
      case FifoInst(_) =>
      case SjfInst(_) =>
      case RrInst(q) => q.SetTimeSlice(ts);
      case WfqInst(_) =>
    }
  }

  /** A fresh scheduler of the given kind; `slice` is used by RR only. */
  method NewInstance(kind: Discipline, slice: int) returns (inst: Instance)
    ensures fresh(inst.Obj())
    ensures inst.Kind() == kind
    ensures inst.State() == Initial(kind, slice)
  {
    match kind
    case Fifo =>
      var s := new FifoQueue.FifoScheduler();
      inst := FifoInst(s);
    case Sjf =>
      var s := new SjfQueue.SjfScheduler();
      inst := SjfInst(s);
    case Rr =>
      var s := new RrQueue.RrScheduler(slice);
      inst := RrInst(s);
    case Wfq =>
      var s := new WfqQueue.WfqScheduler();
      inst := WfqInst(s);
  }
}
