/** The unit of work that flows through every scheduler, and the names of the
    four queue disciplines. */
module Tasks {

  /** `struct Task`. The executable `func` member is not modelled. */
  datatype Task = Task(id: int, estimatedTime: int, weight: int, remainingTime: int)

  /** The default-constructed task: id 0, estimate 1, weight 1, remaining 1. */
  function DefaultTask(): (t: Task)
    ensures t.id == 0 && t.estimatedTime == t.weight == t.remainingTime == 1
  {
    Task(0, 1, 1, 1)
  }

  /** The four-argument constructor: remaining time starts at the estimate. */
  function NewTask(id: int, est: int, w: int): (t: Task)
    ensures t.id == id && t.estimatedTime == est && t.weight == w
    ensures t.remainingTime == t.estimatedTime
  {
    Task(id, est, w, est)
  }

  datatype Discipline = Fifo | Sjf | Rr | Wfq
  {
    /** The string `currentAlgorithm()` reports for the discipline. */
    function Name(): string
    {
      match this
      case Fifo => "FIFO"
      case Sjf => "SJF"
      case Rr => "RR"
      case Wfq => "WFQ"
    }
  }

  const AlgorithmNames: seq<string> := ["FIFO", "SJF", "RR", "WFQ"]

  /** The four names are distinct, so a name identifies its discipline. */
  lemma NameIsInjective(d: Discipline, e: Discipline)
    ensures d.Name() == e.Name() ==> d == e
    ensures d.Name() in AlgorithmNames
  {
  }
}
