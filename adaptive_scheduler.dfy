/** `AdaptiveScheduler`: wraps one inner discipline and, on every enqueue,
    picks the discipline from the CPU load, the queue length hint and the
    variance of the recent workload estimates. When the pick differs from the
    current discipline, the inner scheduler is replaced by a fresh, empty one;
    the tasks the old one held are not carried over. */
module Adaptive {
  import opened Tasks
  import opened Window
  import opened Scheduling
  import SchedulerFactory

  const RrTimesliceDefault: int := 5
  const WorkloadWindow: nat := 40

  /** Sum of the estimates. */
  function Sum(ws: seq<int>): int
  {
    if |ws| == 0 then 0 else Sum(ws[..|ws| - 1]) + ws[|ws| - 1]
  }

  /** Sum of squared deviations from `avg`. */
  function SquaredDeviation(ws: seq<int>, avg: real): real
  {
    if |ws| == 0 then 0.0
    else
      var d := ws[|ws| - 1] as real - avg;
      SquaredDeviation(ws[..|ws| - 1], avg) + d * d
  }

  function Mean(ws: seq<int>): real
    requires |ws| > 0
  {
    Sum(ws) as real / |ws| as real
  }

  lemma {:induction false} SquaredDeviationNonNegative(ws: seq<int>, avg: real)
    ensures SquaredDeviation(ws, avg) >= 0.0
  {
    if |ws| > 0 {
      SquaredDeviationNonNegative(ws[..|ws| - 1], avg);
      var d := ws[|ws| - 1] as real - avg;
      assert d * d >= 0.0;
    }
  }

  lemma SumStep(ws: seq<int>, i: nat)
    requires i < |ws|
    ensures Sum(ws[..i + 1]) as real == Sum(ws[..i]) as real + ws[i] as real
  {
    assert ws[..i + 1][..i] == ws[..i];
  }

  lemma DeviationStep(ws: seq<int>, i: nat, avg: real)
    requires i < |ws|
    ensures SquaredDeviation(ws[..i + 1], avg)
            == SquaredDeviation(ws[..i], avg) + (ws[i] as real - avg) * (ws[i] as real - avg)
  {
    assert ws[..i + 1][..i] == ws[..i];
  }

  /** `workloadVariability`: the population variance of the window, or 0 when
      it holds fewer than five estimates. */
  function Variance(ws: seq<int>): (v: real)
    ensures v >= 0.0
    ensures |ws| < 5 ==> v == 0.0
  {
    if |ws| < 5 then 0.0
    else
      SquaredDeviationNonNegative(ws, Mean(ws));
      SquaredDeviation(ws, Mean(ws)) / |ws| as real
  }

  lemma {:induction false} SumOfConstant(ws: seq<int>, c: int)
    requires forall i :: 0 <= i < |ws| ==> ws[i] == c
    ensures Sum(ws) == |ws| * c
  {
    if |ws| > 0 {
      SumOfConstant(ws[..|ws| - 1], c);
    }
  }

  lemma {:induction false} SquaredDeviationAtConstant(ws: seq<int>, c: int)
    requires forall i :: 0 <= i < |ws| ==> ws[i] == c
    ensures SquaredDeviation(ws, c as real) == 0.0
  {
    if |ws| > 0 {
      SquaredDeviationAtConstant(ws[..|ws| - 1], c);
    }
  }

  /** A window of identical estimates has no variability. */
  lemma VarianceOfConstant(ws: seq<int>, c: int)
    requires forall i :: 0 <= i < |ws| ==> ws[i] == c
    ensures Variance(ws) == 0.0
  {
    if |ws| >= 5 {
      SumOfConstant(ws, c);
      var n := |ws| as real;
      assert Sum(ws) as real == n * (c as real);
      assert Mean(ws) == c as real;
      SquaredDeviationAtConstant(ws, c);
    }
  }

  /** `decideAlgorithm`, stated as the region of (cpu, queue length, variance)
      each discipline is picked in. The rules are tried in order: light load
      gives FIFO; steady workload at moderate CPU gives SJF; high CPU with a
      short queue gives RR; very high CPU or a long queue gives WFQ; the rest
      falls back to SJF. */
  function DecideAlgorithm(cpu: real, qlen: nat, wvar: real): (d: Discipline)
    ensures d == Fifo <==> qlen < 20 && cpu < 40.0
    ensures d == Sjf <==> !(qlen < 20 && cpu < 40.0) && cpu < 70.0 && (wvar < 200.0 || qlen < 200)
    ensures d == Rr <==> 70.0 <= cpu < 85.0 && qlen < 200
    ensures d == Wfq <==> cpu >= 85.0 || (qlen >= 200 && (cpu >= 70.0 || wvar >= 200.0))
  {
    if qlen < 20 && cpu < 40.0 then Fifo
    else if wvar < 200.0 && cpu < 70.0 then Sjf
    else if cpu >= 70.0 && cpu < 85.0 && qlen < 200 then Rr
    else if cpu >= 85.0 || qlen >= 200 then Wfq
    else Sjf
  }

  /** With a window of identical estimates, every load that is not light and
      keeps the CPU under 70% selects SJF. */
  lemma SteadyWorkloadSelectsSjf(ws: seq<int>, c: int, cpu: real, qlen: nat)
    requires forall i :: 0 <= i < |ws| ==> ws[i] == c
    requires !(qlen < 20 && cpu < 40.0) && cpu < 70.0
    ensures DecideAlgorithm(cpu, qlen, Variance(ws)) == Sjf
  {
    VarianceOfConstant(ws, c);
  }

  /** `make`: a fresh, empty scheduler for a name, with RR's slice fixed at
      5; an unknown name falls back to FIFO. */
  method Make(name: string) returns (inst: Instance)
    ensures fresh(inst.Obj())
    ensures inst.Kind() == SchedulerFactory.Resolve(name)
    ensures inst.State() == Initial(SchedulerFactory.Resolve(name), RrTimesliceDefault)
  {
    inst := NewInstance(SchedulerFactory.Resolve(name), RrTimesliceDefault);
  }

  class AdaptiveScheduler {
    /** `inner_`. */
    var inner: Instance
    /** `algoName_`. */
    var algoName: string
    /** `recentWorkloads_`. */
    var recentWorkloads: seq<int>
    /** Every estimate ever recorded, oldest first. */
    ghost var arrivals: seq<int>

    /** The reported name is the inner discipline's, and the window is the
        newest 40 estimates recorded. */
    ghost predicate Valid()
      reads this
    {
      algoName == inner.Kind().Name()
      && recentWorkloads == KeepLast(arrivals, WorkloadWindow)
    }

    /** Starts on an empty FIFO with an empty window. */
    constructor ()
      ensures Valid()
      ensures algoName == "FIFO" && inner.Kind() == Fifo
      ensures fresh(inner.Obj()) && inner.State() == Line([])
      ensures recentWorkloads == [] && arrivals == []
    {
      algoName := "FIFO";
      var f := new FifoQueue.FifoScheduler();
      inner := FifoInst(f);
      recentWorkloads := [];
      arrivals := [];
    }

    /** `currentAlgorithm()`: the inner discipline's name. */
    function CurrentAlgorithm(): (name: string)
      requires Valid()
      reads this
      ensures name == inner.Kind().Name()
      ensures name in AlgorithmNames
    {
      NameIsInjective(inner.Kind(), inner.Kind());
      algoName
    }

    /** `workloadVariability()`, computed the way the source does: a sum, a
        mean, then a sum of squared deviations. */
    method WorkloadVariability() returns (v: real)
      ensures v == Variance(recentWorkloads)
    {
      var ws := recentWorkloads;
      var n := |ws|;
      if n < 5 {
        return 0.0;
      }
      var sum := 0.0;
      for i := 0 to n
        invariant sum == Sum(ws[..i]) as real
      {
        SumStep(ws, i);
        sum := sum + ws[i] as real;
      }
      assert ws[..n] == ws;
      var avg := sum / n as real;
      var acc := 0.0;
      for i := 0 to n
        invariant acc == SquaredDeviation(ws[..i], avg)
      {
        DeviationStep(ws, i, avg);
        acc := acc + (ws[i] as real - avg) * (ws[i] as real - avg);
      }
      assert avg == Mean(ws);
      v := acc / n as real;
    }

    /** The two-argument `enqueue`, with the CPU reading as a parameter:
        records the estimate in the window, decides the discipline from the
        reading, the hint and the window's variance, replaces the inner
        scheduler by a fresh empty one when the decision differs from the
        current one, and enqueues the task on the inner scheduler. */
    method EnqueueWithLength(t: Task, queueLen: nat, cpu: real)
      requires Valid()
      modifies this, inner.Obj()
      ensures Valid()
      ensures arrivals == old(arrivals) + [t.estimatedTime]
      ensures recentWorkloads == PushBounded(old(recentWorkloads), t.estimatedTime, WorkloadWindow)
      ensures inner.Kind() == DecideAlgorithm(cpu, queueLen, Variance(recentWorkloads))
      ensures inner.Kind() != old(inner.Kind()) ==>
                fresh(inner.Obj()) && inner.State() == Initial(inner.Kind(), RrTimesliceDefault).With(t)
      ensures inner.Kind() == old(inner.Kind()) ==>
                inner == old(inner) && inner.State() == old(inner.State()).With(t)
    {
      RecordWorkload(t.estimatedTime);
      var wvar := WorkloadVariability();
      var target := DecideAlgorithm(cpu, queueLen, wvar);
      NameIsInjective(target, inner.Kind());
      if target.Name() != algoName {
        inner := Make(target.Name());
        SchedulerFactory.ResolveName(target);
        algoName := target.Name();
      }
      var cur := inner;
      assert this != cur.Obj();
      cur.Enqueue(t);
    }

    /** Appends one estimate to the window, dropping the oldest beyond 40. */
    method RecordWorkload(w: int)
      requires Valid()
      modifies this
      ensures Valid()
      ensures inner == old(inner) && algoName == old(algoName)
      ensures arrivals == old(arrivals) + [w]
      ensures recentWorkloads == PushBounded(old(recentWorkloads), w, WorkloadWindow)
    {
      PushBoundedKeepsLast(arrivals, w, WorkloadWindow);
      recentWorkloads := recentWorkloads + [w];
      if |recentWorkloads| > WorkloadWindow {
        recentWorkloads := recentWorkloads[1..];
      }
      arrivals := arrivals + [w];
    }

    /** The one-argument `enqueue` passes a queue length of 0. */
    method Enqueue(t: Task, cpu: real)
      requires Valid()
      modifies this, inner.Obj()
      ensures Valid()
      ensures arrivals == old(arrivals) + [t.estimatedTime]
      ensures recentWorkloads == PushBounded(old(recentWorkloads), t.estimatedTime, WorkloadWindow)
      ensures inner.Kind() == DecideAlgorithm(cpu, 0, Variance(recentWorkloads))
      ensures inner.Kind() != old(inner.Kind()) ==>
                fresh(inner.Obj()) && inner.State() == Initial(inner.Kind(), RrTimesliceDefault).With(t)
      ensures inner.Kind() == old(inner.Kind()) ==>
                inner == old(inner) && inner.State() == old(inner.State()).With(t)
    {
      EnqueueWithLength(t, 0, cpu);
    }

    /** `dequeue()`: the inner discipline's dequeue. */
    method Dequeue() returns (t: Task)
      requires Valid() && !inner.Empty()
      modifies inner.Obj()
      ensures Served(inner.Kind(), old(inner.State()), t, inner.State())
    {
      var cur := inner;
      t := cur.Dequeue();
      assert inner == cur;
    }

    /** `empty()`: whether the inner scheduler holds nothing. */
    predicate Empty()
      reads this, inner.Obj()
      ensures Empty() <==> inner.State().Contents() == multiset{}
    {
      inner.Empty()
    }

    /** Kept for the interface; the adaptive scheduler ignores it. */
    method SetTimeSlice(ts: int)
      ensures unchanged(this)
    {
    }

    /** Kept for the interface; the adaptive scheduler ignores it. */
    method UpdateWeights(newWeight: int)
      ensures unchanged(this)
    {
    }
  }

  /** A switch of discipline drops what was queued: a task accepted under
      light load is gone once a CPU reading of 90% moves the scheduler to WFQ,
      which then holds only the task that triggered the switch. */
  method MigrationDropsQueuedTasks(first: Task, second: Task) returns (kept: multiset<Task>)
    ensures kept == multiset{second}
  {
    var s := new AdaptiveScheduler();
    s.EnqueueWithLength(first, 0, 10.0);
    assert s.inner.Kind() == Fifo;
    s.EnqueueWithLength(second, 0, 90.0);
    assert s.inner.Kind() == Wfq;
    kept := s.inner.State().Contents();
  }
}
