/** The dashboard page `dashboard/app.js`: the list of metric events it keeps,
    the algorithm timeline with its switch markers, and the per-algorithm
    grouping behind the latency and throughput charts. Drawing, timestamps
    formatting and the WebSocket are not part of this model. */
module DashboardApp {
  import opened Wrappers
  import opened Window

  /** `ALGOS`; the last entry stands for any other name. */
  const Algos: seq<string> := ["FIFO", "SJF", "RR", "WFQ", "ADAPTIVE", "UNKNOWN"]

  const MaxEvents: nat := 2000

  /** Events shown on the timeline. */
  const TimelineEvents: nat := 300

  /** `Array.prototype.indexOf`. */
  function IndexOf(xs: seq<string>, a: string): (r: Option<nat>)
    ensures r.Some? ==> r.value < |xs| && xs[r.value] == a && a !in xs[..r.value]
    ensures r.None? <==> a !in xs
  {
    if xs == [] then None
    else if xs[0] == a then Some(0)
    else
      match IndexOf(xs[1..], a)
      case None => None
      case Some(i) =>
        assert xs[..i + 1] == [xs[0]] + xs[1..][..i];
        Some(i + 1)
  }

  /** `algoIndex`. */
  function AlgoIndex(a: string): (i: nat)
    ensures i < |Algos|
  {
    match IndexOf(Algos, a)
    case Some(i) => i
    case None => |Algos| - 1
  }

  /** `algoIndex` gives the position of a known name and the position of
      "UNKNOWN" for any other. */
  lemma AlgoIndexFinds(a: string)
    ensures a in Algos ==> Algos[AlgoIndex(a)] == a
    ensures a !in Algos ==> AlgoIndex(a) == |Algos| - 1
  {
  }

  /** Each listed name maps back to its own position. */
  lemma AlgoIndexOfAlgo(i: nat)
    requires i < |Algos|
    ensures AlgoIndex(Algos[i]) == i
  {
  }

  /** A metric event as the page receives it; an absent field is None. */
  datatype Event = Event(timestamp: string, algoAtRun: Option<string>, responseTimeMs: Option<real>)

  /** JavaScript truthiness of a string field: present and non-empty. */
  predicate Present(o: Option<string>) { o.Some? && o.value != "" }

  /** `e.algo_at_run || "UNKNOWN"`. */
  function RunAlgo(e: Event): (a: string)
    ensures Present(e.algoAtRun) ==> a == e.algoAtRun.value
    ensures !Present(e.algoAtRun) ==> a == "UNKNOWN"
  {
    if Present(e.algoAtRun) then e.algoAtRun.value else "UNKNOWN"
  }

  // ---------------------------------------------------------------------
  // The events list
  // ---------------------------------------------------------------------

  class Dashboard {
    var events: seq<Event>
    /** The last snapshot received, and the events pushed since. */
    ghost var base: seq<Event>
    ghost var pushed: seq<Event>

    /** Before any push the list is the snapshot as received; after a push it
        is the newest 2000 of the snapshot followed by the pushed events. */
    ghost predicate Valid()
      reads this
    {
      if pushed == [] then events == base else events == KeepLast(base + pushed, MaxEvents)
    }

    constructor ()
      ensures Valid() && events == [] && base == [] && pushed == []
    {
      events := [];
      base := [];
      pushed := [];
    }

    /** `pushEvent`: append, then keep the newest 2000. */
    method PushEvent(e: Event)
      requires Valid()
      modifies this
      ensures Valid() && base == old(base) && pushed == old(pushed) + [e]
      ensures events == KeepLast(old(events) + [e], MaxEvents)
      ensures |events| <= MaxEvents
    {
      PushKeepsNewest(base, pushed, events, e);
      events := events + [e];
      if |events| > MaxEvents {
        events := events[|events| - MaxEvents..];
      }
      pushed := pushed + [e];
    }

    /** The list after a push is the newest 2000 of the snapshot and every
        event pushed since. */
    static lemma PushKeepsNewest(base: seq<Event>, pushed: seq<Event>, events: seq<Event>, e: Event)
      requires if pushed == [] then events == base else events == KeepLast(base + pushed, MaxEvents)
      ensures KeepLast(events + [e], MaxEvents) == KeepLast(base + (pushed + [e]), MaxEvents)
    {
      assert base + (pushed + [e]) == (base + pushed) + [e];
      if pushed != [] {
        KeepLastAppend(base + pushed, e, MaxEvents);
      }
    }

    /** A "snapshot" message replaces the list wholesale. */
    method ApplySnapshot(data: seq<Event>)
      modifies this
      ensures Valid() && events == data && base == data && pushed == []
    {
      events := data;
      base := data;
      pushed := [];
    }
  }

  // ---------------------------------------------------------------------
  // updateTimeline
  // ---------------------------------------------------------------------

  /** The y value of every event on the timeline: the index of its
      algorithm, UNKNOWN's when it has none. */
  function TimelineY(events: seq<Event>): (y: seq<nat>)
    ensures var slice := KeepLast(events, TimelineEvents);
            |y| == |slice| && forall i :: 0 <= i < |y| ==> y[i] == AlgoIndex(RunAlgo(slice[i]))
    ensures forall i :: 0 <= i < |y| ==> y[i] < |Algos|
  {
    var slice := KeepLast(events, TimelineEvents);
    seq(|slice|, i requires 0 <= i < |slice| => AlgoIndex(RunAlgo(slice[i])))
  }

  /** A marker at position `at` of the slice, at the height of the new
      algorithm. */
  datatype SwitchPoint = SwitchPoint(at: nat, y: nat)

  /** Both neighbours name an algorithm and the names differ. */
  predicate IsSwitch(slice: seq<Event>, i: nat)
    requires 1 <= i < |slice|
  {
    Present(slice[i - 1].algoAtRun) && Present(slice[i].algoAtRun)
    && slice[i - 1].algoAtRun.value != slice[i].algoAtRun.value
  }

  /** The markers among the first `n` events. */
  function Switches(slice: seq<Event>, n: nat): seq<SwitchPoint>
    requires n <= |slice|
  {
    if n <= 1 then []
    else Switches(slice, n - 1)
         + (if IsSwitch(slice, n - 1) then [SwitchPoint(n - 1, AlgoIndex(slice[n - 1].algoAtRun.value))] else [])
  }

  /** The marker loop of `updateTimeline`. */
  method SwitchPoints(slice: seq<Event>) returns (points: seq<SwitchPoint>)
    ensures points == Switches(slice, |slice|)
  {
    points := [];
    if |slice| == 0 {
      return;
    }
    var i := 1;
    while i < |slice|
      invariant 1 <= i <= |slice|
      invariant points == Switches(slice, i)
    {
      var prev := slice[i - 1].algoAtRun;
      var cur := slice[i].algoAtRun;
      if Present(prev) && Present(cur) && prev.value != cur.value {
        points := points + [SwitchPoint(i, AlgoIndex(cur.value))];
      }
      i := i + 1;
    }
  }

  /** Every marker sits at a switch, with the new algorithm's index. */
  lemma {:induction false} SwitchesSound(slice: seq<Event>, n: nat)
    requires n <= |slice|
    ensures forall p :: p in Switches(slice, n) ==>
              1 <= p.at < n && IsSwitch(slice, p.at) && p.y == AlgoIndex(slice[p.at].algoAtRun.value)
  {
    if n > 1 {
      SwitchesSound(slice, n - 1);
    }
  }

  /** Every switch gets its marker. */
  lemma {:induction false} SwitchesComplete(slice: seq<Event>, n: nat)
    requires n <= |slice|
    ensures forall i :: 1 <= i < n && IsSwitch(slice, i) ==>
              SwitchPoint(i, AlgoIndex(slice[i].algoAtRun.value)) in Switches(slice, n)
  {
    if n > 1 {
      SwitchesComplete(slice, n - 1);
    }
  }

  /** The markers come in the order of the events. */
  lemma {:induction false} SwitchesOrdered(slice: seq<Event>, n: nat)
    requires n <= |slice|
    ensures forall j, k :: 0 <= j < k < |Switches(slice, n)| ==> Switches(slice, n)[j].at < Switches(slice, n)[k].at
  {
    if n > 1 {
      SwitchesOrdered(slice, n - 1);
      SwitchesSound(slice, n - 1);
      var prev := Switches(slice, n - 1);
      assert forall j :: 0 <= j < |prev| ==> prev[j] in prev;
    }
  }

  /** `updateTimeline`: the plotted heights of the newest 300 events and the
      switch markers among them. */
  method UpdateTimeline(events: seq<Event>) returns (y: seq<nat>, points: seq<SwitchPoint>)
    ensures y == TimelineY(events)
    ensures points == Switches(KeepLast(events, TimelineEvents), |KeepLast(events, TimelineEvents)|)
  {
    var slice := KeepLast(events, TimelineEvents);
    y := TimelineY(events);
    points := SwitchPoints(slice);
  }

  // ---------------------------------------------------------------------
  // updatePerfCharts
  // ---------------------------------------------------------------------

  /** How many events ran under `a`. */
  function CountAlgo(es: seq<Event>, a: string): nat
  {
    if es == [] then 0 else CountAlgo(es[..|es| - 1], a) + (if RunAlgo(es[|es| - 1]) == a then 1 else 0)
  }

  /** `Number(e.response_time_ms ?? 0)`. */
  function Latency(e: Event): real
  {
    match e.responseTimeMs case Some(v) => v case None => 0.0
  }

  /** The summed latency of the events that ran under `a`. */
  function SumLatency(es: seq<Event>, a: string): real
  {
    if es == [] then 0.0 else SumLatency(es[..|es| - 1], a) + (if RunAlgo(es[|es| - 1]) == a then Latency(es[|es| - 1]) else 0.0)
  }

  /** The counts of the listed algorithms, added up. */
  function Total(order: seq<string>, count: map<string, nat>): nat
  {
    if order == [] then 0
    else Total(order[..|order| - 1], count) + (if order[|order| - 1] in count then count[order[|order| - 1]] else 0)
  }

  predicate Distinct(order: seq<string>)
  {
    forall i, j :: 0 <= i < j < |order| ==> order[i] != order[j]
  }

  /** Adding one to a listed algorithm adds one to the total. */
  lemma {:induction false} TotalBump(order: seq<string>, count: map<string, nat>, a: string)
    requires Distinct(order) && a in order && a in count
    ensures Total(order, count[a := count[a] + 1]) == Total(order, count) + 1
  {
    var n := |order| - 1;
    var prefix := order[..n];
    if order[n] == a {
      assert a !in prefix;
      TotalIgnores(prefix, count, a, count[a] + 1);
    } else {
      assert a in prefix;
      TotalBump(prefix, count, a);
    }
  }

  /** The total does not depend on algorithms that are not listed. */
  lemma {:induction false} TotalIgnores(order: seq<string>, count: map<string, nat>, a: string, v: nat)
    requires a !in order
    ensures Total(order, count[a := v]) == Total(order, count)
  {
    if order != [] {
      assert order[|order| - 1] != a;
      TotalIgnores(order[..|order| - 1], count, a, v);
    }
  }

  /** `order`, `count` and `sum` are the Map the grouping loop builds from
      `es`: one entry per algorithm that occurs, in first-seen order, with
      its number of events and its summed latency. */
  ghost predicate Groups(es: seq<Event>, order: seq<string>, count: map<string, nat>, sum: map<string, real>)
  {
    Listed(order, count, sum) && Counted(es, count) && Summed(es, sum) && Total(order, count) == |es|
  }

  /** The Map's keys, once each, in `order`. */
  ghost predicate Listed(order: seq<string>, count: map<string, nat>, sum: map<string, real>)
  {
    Distinct(order) && count.Keys == sum.Keys && (forall a :: a in order <==> a in count)
  }

  /** The algorithms with events, and how many each has. */
  ghost predicate Counted(es: seq<Event>, count: map<string, nat>)
  {
    (forall a :: a in count <==> CountAlgo(es, a) > 0)
    && (forall a :: a in count ==> count[a] == CountAlgo(es, a))
  }

  /** The summed latency of each algorithm. */
  ghost predicate Summed(es: seq<Event>, sum: map<string, real>)
  {
    forall a :: a in sum ==> sum[a] == SumLatency(es, a)
  }

  /** An algorithm without events has no latency summed. */
  lemma {:induction false} SumOfAbsent(es: seq<Event>, a: string)
    requires CountAlgo(es, a) == 0
    ensures SumLatency(es, a) == 0.0
  {
    if es != [] {
      SumOfAbsent(es[..|es| - 1], a);
    }
  }

  /** A name not yet listed keeps the list free of repeats. */
  lemma DistinctSnoc(order: seq<string>, a: string)
    requires Distinct(order) && a !in order
    ensures Distinct(order + [a])
  {
    var o := order + [a];
    forall i, j | 0 <= i < j < |o| ensures o[i] != o[j] {
      assert o[i] == order[i];
    }
  }

  /** The Map the grouping loop holds: its keys in insertion order, and the
      count and the summed latency under each key. */
  datatype Grouping = Grouping(order: seq<string>, count: map<string, nat>, sum: map<string, real>)

  /** One pass of the grouping loop: a new key is added with its first
      event, a known one has its counters bumped. */
  function AddEvent(g: Grouping, e: Event): Grouping
    requires g.count.Keys == g.sum.Keys
  {
    var algo := RunAlgo(e);
    if algo !in g.count then Grouping(g.order + [algo], g.count[algo := 1], g.sum[algo := Latency(e)])
    else Grouping(g.order, g.count[algo := g.count[algo] + 1], g.sum[algo := g.sum[algo] + Latency(e)])
  }

  /** The Map after the loop has seen `es`. */
  function GroupOf(es: seq<Event>): (g: Grouping)
    ensures g.count.Keys == g.sum.Keys
  {
    if es == [] then Grouping([], map[], map[]) else AddEvent(GroupOf(es[..|es| - 1]), es[|es| - 1])
  }

  // The step lemmas below look at a non-empty `es` as the events before its
  // last one, followed by that last one.

  lemma ListedStep(g: Grouping, e: Event)
    requires Listed(g.order, g.count, g.sum)
    ensures var h := AddEvent(g, e); Listed(h.order, h.count, h.sum)
  {
    if RunAlgo(e) !in g.count {
      DistinctSnoc(g.order, RunAlgo(e));
    }
  }

  lemma CountedStep(es: seq<Event>, g: Grouping)
    requires es != [] && g.count.Keys == g.sum.Keys && Counted(es[..|es| - 1], g.count)
    ensures Counted(es, AddEvent(g, es[|es| - 1]).count)
  {
  }

  lemma SummedStep(es: seq<Event>, g: Grouping)
    requires es != [] && g.count.Keys == g.sum.Keys
    requires Counted(es[..|es| - 1], g.count) && Summed(es[..|es| - 1], g.sum)
    ensures Summed(es, AddEvent(g, es[|es| - 1]).sum)
  {
    var algo := RunAlgo(es[|es| - 1]);
    if algo !in g.count {
      SumOfAbsent(es[..|es| - 1], algo);
    }
  }

  lemma TotalStep(es: seq<Event>, g: Grouping)
    requires es != [] && Listed(g.order, g.count, g.sum) && Total(g.order, g.count) == |es| - 1
    ensures var h := AddEvent(g, es[|es| - 1]); Total(h.order, h.count) == |es|
  {
    var algo := RunAlgo(es[|es| - 1]);
    if algo !in g.count {
      TotalAppend(g.order, g.count, algo);
    } else {
      TotalBump(g.order, g.count, algo);
    }
  }

  /** A new algorithm listed last with one event adds one to the total. */
  lemma TotalAppend(order: seq<string>, count: map<string, nat>, a: string)
    requires a !in order
    ensures Total(order + [a], count[a := 1]) == Total(order, count) + 1
  {
    TotalIgnores(order, count, a, 1);
    assert (order + [a])[..|order|] == order;
  }

  /** One pass of the loop keeps the Map in step with the events seen. */
  lemma AddEventGroups(es: seq<Event>, g: Grouping)
    requires es != [] && Groups(es[..|es| - 1], g.order, g.count, g.sum)
    ensures var h := AddEvent(g, es[|es| - 1]); Groups(es, h.order, h.count, h.sum)
  {
    ListedStep(g, es[|es| - 1]);
    CountedStep(es, g);
    SummedStep(es, g);
    TotalStep(es, g);
  }

  /** The grouping of any prefix of the events is their Map. */
  lemma {:induction false} GroupOfGroups(es: seq<Event>)
    ensures var g := GroupOf(es); Groups(es, g.order, g.count, g.sum)
  {
    if es != [] {
      GroupOfGroups(es[..|es| - 1]);
      AddEventGroups(es, GroupOf(es[..|es| - 1]));
    }
  }

  /** The grouping loop of `updatePerfCharts`: a Map from algorithm to its
      counters, in first-seen order. */
  method GroupByAlgo(events: seq<Event>) returns (order: seq<string>, count: map<string, nat>, sum: map<string, real>)
    ensures Grouping(order, count, sum) == GroupOf(events)
    ensures Groups(events, order, count, sum)
  {
    order := [];
    count := map[];
    sum := map[];
    for i := 0 to |events|
      invariant Grouping(order, count, sum) == GroupOf(events[..i])
    {
      assert events[..i + 1][..i] == events[..i];
      var e := events[i];
      var algo := RunAlgo(e);
      if algo !in count {
        order := order + [algo];
        count := count[algo := 1];
        sum := sum[algo := Latency(e)];
      } else {
        count := count[algo := count[algo] + 1];
        sum := sum[algo := sum[algo] + Latency(e)];
      }
    }
    assert events[..|events|] == events;
    GroupOfGroups(events);
  }

  /** One bar of the latency and throughput charts. */
  datatype PerfRow = PerfRow(algo: string, avgLatency: real, throughput: real)

  /** The sort key of a bar. */
  function Key(r: PerfRow): nat { AlgoIndex(r.algo) }

  predicate SortedByAlgoIndex(rows: seq<PerfRow>)
  {
    SortedBy(rows, Key)
  }

  // Insertion by a key, stated for any key so that the proofs do not look
  // into `algoIndex`.

  predicate SortedBy<T>(rows: seq<T>, key: T -> nat)
  {
    forall i, j :: 0 <= i < j < |rows| ==> key(rows[i]) <= key(rows[j])
  }

  /** Inserts `x` after every element whose key is not larger. */
  function InsertBy<T>(rows: seq<T>, x: T, key: T -> nat): seq<T>
  {
    if rows == [] || key(rows[|rows| - 1]) <= key(x) then rows + [x]
    else InsertBy(rows[..|rows| - 1], x, key) + [rows[|rows| - 1]]
  }

  /** Insertion adds `x` and loses nothing. */
  lemma {:induction false} InsertPermutes<T>(rows: seq<T>, x: T, key: T -> nat)
    ensures multiset(InsertBy(rows, x, key)) == multiset(rows) + multiset{x}
  {
    if rows != [] && key(rows[|rows| - 1]) > key(x) {
      InsertPermutes(rows[..|rows| - 1], x, key);
      assert rows == rows[..|rows| - 1] + [rows[|rows| - 1]];
    }
  }

  /** Inserting into sorted rows keeps them sorted. */
  lemma {:induction false} InsertSorted<T>(rows: seq<T>, x: T, key: T -> nat)
    requires SortedBy(rows, key)
    ensures SortedBy(InsertBy(rows, x, key), key)
  {
    if rows != [] && key(rows[|rows| - 1]) > key(x) {
      var prefix := rows[..|rows| - 1];
      InsertSorted(prefix, x, key);
      InsertBeforeLast(rows, x, key);
    } else {
      SortedSnoc(rows, x, key);
    }
  }

  /** The step of the insertion where `x` goes before the last element. */
  lemma InsertBeforeLast<T>(rows: seq<T>, x: T, key: T -> nat)
    requires SortedBy(rows, key)
    requires rows != [] && key(rows[|rows| - 1]) > key(x)
    requires SortedBy(InsertBy(rows[..|rows| - 1], x, key), key)
    ensures SortedBy(InsertBy(rows, x, key), key)
  {
    BoundedByLast(rows, x, key);
    SortedSnoc(InsertBy(rows[..|rows| - 1], x, key), rows[|rows| - 1], key);
  }

  /** When `x` goes before the last element, every element of the shorter
      insertion is bounded by that last element. */
  lemma BoundedByLast<T>(rows: seq<T>, x: T, key: T -> nat)
    requires SortedBy(rows, key)
    requires rows != [] && key(rows[|rows| - 1]) > key(x)
    ensures forall y :: y in InsertBy(rows[..|rows| - 1], x, key) ==> key(y) <= key(rows[|rows| - 1])
  {
    var prefix := rows[..|rows| - 1];
    var front := InsertBy(prefix, x, key);
    InsertPermutes(prefix, x, key);
    forall y | y in front ensures key(y) <= key(rows[|rows| - 1]) {
      assert y in multiset(front);
      if y != x {
        assert y in prefix;
      }
    }
  }

  /** Appending an element no smaller than the others keeps them sorted. */
  lemma SortedSnoc<T>(rows: seq<T>, x: T, key: T -> nat)
    requires SortedBy(rows, key)
    requires forall y :: y in rows ==> key(y) <= key(x)
    ensures SortedBy(rows + [x], key)
  {
    var r := rows + [x];
    forall i, j | 0 <= i < j < |r| ensures key(r[i]) <= key(r[j]) {
      if j == |rows| {
        assert r[i] in rows;
      } else {
        assert r[i] == rows[i] && r[j] == rows[j];
      }
    }
  }

  /** The `.sort((a, b) => algoIndex(a.algo) - algoIndex(b.algo))` step. */
  method SortByAlgoIndex(rows: seq<PerfRow>) returns (sorted: seq<PerfRow>)
    ensures SortedByAlgoIndex(sorted)
    ensures multiset(sorted) == multiset(rows)
  {
    sorted := [];
    for i := 0 to |rows|
      invariant SortedBy(sorted, Key)
      invariant multiset(sorted) == multiset(rows[..i])
    {
      assert rows[..i + 1] == rows[..i] + [rows[i]];
      InsertSorted(sorted, rows[i], Key);
      InsertPermutes(sorted, rows[i], Key);
      sorted := InsertBy(sorted, rows[i], Key);
    }
    assert rows[..|rows|] == rows;
  }

  /** The time window of the throughput chart: `elapsed` is the difference
      between the last and the first timestamp, in seconds. */
  function TimeWindow(n: nat, elapsed: real): (dt: real)
    ensures dt >= 1.0
  {
    if n >= 2 then (if elapsed > 1.0 then elapsed else 1.0) else 1.0
  }

  /** `updatePerfCharts`: one bar per algorithm seen, with its mean latency
      and its rate over the window, ordered by algorithm index. */
  method UpdatePerfCharts(events: seq<Event>, elapsed: real) returns (bars: seq<PerfRow>)
    ensures SortedByAlgoIndex(bars)
    ensures forall b :: b in bars ==> CountAlgo(events, b.algo) > 0
    ensures forall b :: b in bars ==> b.avgLatency == SumLatency(events, b.algo) / (CountAlgo(events, b.algo) as real)
    ensures forall b :: b in bars ==> b.throughput == (CountAlgo(events, b.algo) as real) / TimeWindow(|events|, elapsed)
    ensures forall a :: CountAlgo(events, a) > 0 ==> exists b :: b in bars && b.algo == a
    ensures OneBarEach(bars)
  {
    var order, count, sum := GroupByAlgo(events);
    var dt := TimeWindow(|events|, elapsed);
    var rows := Bars(events, order, count, sum, dt);
    bars := SortByAlgoIndex(rows);
    SameElements(rows, bars);
    OneBarEachPermutes(rows, bars);
    forall a | CountAlgo(events, a) > 0 ensures exists b :: b in bars && b.algo == a {
      assert a in order;
      var j :| 0 <= j < |order| && order[j] == a;
      assert rows[j] in rows;
    }
  }

  /** No two bars share an algorithm. */
  predicate OneBarEach(rows: seq<PerfRow>)
  {
    forall i, j :: 0 <= i < j < |rows| ==> rows[i].algo != rows[j].algo
  }

  /** Rows with distinct algorithms hold each row at most once. */
  lemma {:induction false} OneBarEachOnce(rows: seq<PerfRow>, x: PerfRow)
    requires OneBarEach(rows)
    ensures multiset(rows)[x] <= 1
  {
    if rows != [] {
      var n := |rows| - 1;
      assert rows == rows[..n] + [rows[n]];
      OneBarEachOnce(rows[..n], x);
      if rows[n] == x {
        assert x !in rows[..n] by {
          forall i | 0 <= i < n ensures rows[..n][i] != x {
            assert rows[i].algo != rows[n].algo;
          }
        }
      }
    }
  }

  /** Reordering rows with distinct algorithms keeps them distinct. */
  lemma OneBarEachPermutes(a: seq<PerfRow>, b: seq<PerfRow>)
    requires OneBarEach(a) && multiset(a) == multiset(b)
    ensures OneBarEach(b)
  {
    forall i, j | 0 <= i < j < |b| ensures b[i].algo != b[j].algo {
      if b[i] == b[j] {
        assert b == b[..j] + [b[j]] + b[j + 1..];
        assert b[i] in multiset(b[..j]) by { assert b[..j][i] == b[i]; }
        assert multiset(b)[b[j]] >= 2;
        OneBarEachOnce(a, b[j]);
      } else {
        assert b[i] in multiset(a) && b[j] in multiset(a);
        var p :| 0 <= p < |a| && a[p] == b[i];
        var q :| 0 <= q < |a| && a[q] == b[j];
        if p < q {
          assert a[p].algo != a[q].algo;
        } else {
          assert a[q].algo != a[p].algo;
        }
      }
    }
  }

  lemma SameElements(a: seq<PerfRow>, b: seq<PerfRow>)
    requires multiset(a) == multiset(b)
    ensures forall x :: x in a <==> x in b
  {
    forall x ensures x in a <==> x in b {
      assert x in a <==> x in multiset(a);
      assert x in b <==> x in multiset(b);
    }
  }

  /** The `Array.from(map.values()).map(...)` step, in the Map's order. */
  method Bars(events: seq<Event>, order: seq<string>, count: map<string, nat>, sum: map<string, real>, dt: real)
    returns (rows: seq<PerfRow>)
    requires forall a :: a in order ==> a in count && a in sum
    requires forall a :: a in count ==> CountAlgo(events, a) > 0 && count[a] == CountAlgo(events, a)
    requires forall a :: a in sum ==> sum[a] == SumLatency(events, a)
    requires dt >= 1.0
    ensures |rows| == |order| && forall j :: 0 <= j < |order| ==> rows[j].algo == order[j]
    ensures forall b :: b in rows ==> CountAlgo(events, b.algo) > 0
    ensures forall b :: b in rows ==> b.avgLatency == SumLatency(events, b.algo) / (CountAlgo(events, b.algo) as real)
    ensures forall b :: b in rows ==> b.throughput == (CountAlgo(events, b.algo) as real) / dt
  {
    rows := [];
    for i := 0 to |order|
      invariant |rows| == i
      invariant forall j :: 0 <= j < i ==> rows[j].algo == order[j]
      invariant forall b :: b in rows ==> CountAlgo(events, b.algo) > 0
      invariant forall b :: b in rows ==> b.avgLatency == SumLatency(events, b.algo) / (CountAlgo(events, b.algo) as real)
      invariant forall b :: b in rows ==> b.throughput == (CountAlgo(events, b.algo) as real) / dt
    {
      var a := order[i];
      var avg := if count[a] > 0 then sum[a] / (count[a] as real) else 0.0;
      rows := rows + [PerfRow(a, avg, (count[a] as real) / dt)];
    }
  }
}
