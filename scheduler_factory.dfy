/** `SchedulerFactory::create`: a scheduler from its name. */
module SchedulerFactory {
  import opened Tasks
  import opened Scheduling

  /** The discipline a name selects: each of "FIFO", "SJF", "RR" and "WFQ"
      selects the discipline of that name, and any other string (a
      misspelling, a lower-case name, "") falls back to FIFO. */
  function Resolve(name: string): (d: Discipline)
    ensures name in AlgorithmNames ==> d.Name() == name
    ensures name !in AlgorithmNames ==> d == Fifo
  {
    if name == "FIFO" then Fifo
    else if name == "SJF" then Sjf
    else if name == "RR" then Rr
    else if name == "WFQ" then Wfq
    else Fifo
  }

  /** Resolving the name a discipline reports gives that discipline back. */
  lemma {:induction false} ResolveName(d: Discipline)
    ensures Resolve(d.Name()) == d
  {
    NameIsInjective(d, d);
    NameIsInjective(Resolve(d.Name()), d);
  }

  /** A fresh, empty scheduler of the resolved discipline; RR gets the given
      slice, which defaults to 1. */
  method Create(name: string, timeSlice: int := 1) returns (inst: Instance)
    ensures fresh(inst.Obj())
    ensures inst.Kind() == Resolve(name)
    ensures inst.State() == Initial(Resolve(name), timeSlice)
  {
    inst := NewInstance(Resolve(name), timeSlice);
  }
}
