/** The training-set builder `scripts/merge_dataset.py`: it tags the rows of
    every per-run log `W<n>_<ALGO>.csv` with their workload and algorithm,
    keeps workloads 4 and up, bins the queue length, picks for every
    (workload, queue bin) the algorithm with the smallest mean response
    time among those with enough samples, labels the rows with it, and
    balances the classes. pandas frames are sequences of rows here. */
module MergeDataset {
  import opened Wrappers
  import opened Text

  const Algos: seq<string> := ["FIFO", "SJF", "RR", "WFQ"]

  // ---------------------------------------------------------------------
  // parse_name
  // ---------------------------------------------------------------------

  /** Python's `\w` restricted to ASCII. */
  predicate IsWordChar(c: char) { IsDigit(c) || 'a' <= c <= 'z' || 'A' <= c <= 'Z' || c == '_' }

  predicate AllWord(s: string) { forall i :: 0 <= i < |s| ==> IsWordChar(s[i]) }

  const Ext: string := ".csv"

  /** `fname` is `W` + `digits` + `_` + `algo` + `.csv`, the shape the
      pattern `W(\d+)_(\w+)\.csv$` accepts. */
  predicate RunName(fname: string, digits: string, algo: string)
  {
    digits != [] && AllDigits(digits) && algo != [] && AllWord(algo)
    && fname == "W" + digits + "_" + algo + Ext
  }

  /** The digits right after the leading `W`. */
  function NameDigits(fname: string): string
  {
    if fname == [] then [] else LeadingDigits(fname[1..])
  }

  /** `parse_name`: the workload number and the algorithm word of a run
      file name, or None (the `(None, None)` pair) for any other name. */
  function ParseName(fname: string): (r: Option<(nat, string)>)
    ensures r.Some? ==> |fname| > |Ext| && fname[0] == 'W' && fname[|fname| - |Ext|..] == Ext
    ensures r.Some? ==> r.value.1 != [] && AllWord(r.value.1)
  {
    if fname == [] || fname[0] != 'W' then None
    else
      var digits := LeadingDigits(fname[1..]);
      var k := 1 + |digits|;
      if digits == [] || k >= |fname| || fname[k] != '_' then None
      else
        var rest := fname[k + 1..];
        if |rest| <= |Ext| || rest[|rest| - |Ext|..] != Ext then None
        else
          var algo := rest[..|rest| - |Ext|];
          if AllWord(algo) then Some((DigitsValue(digits), algo)) else None
  }

  /** Only names of the accepted shape parse, into their digits' value and
      their algorithm word. */
  lemma ParseNameSound(fname: string)
    ensures var r := ParseName(fname);
            r.Some? ==> RunName(fname, NameDigits(fname), r.value.1) && r.value.0 == DigitsValue(NameDigits(fname))
  {
    if ParseName(fname).Some? {
      var digits := LeadingDigits(fname[1..]);
      LeadingDigitsSpan(fname[1..]);
      var k := 1 + |digits|;
      var rest := fname[k + 1..];
      var algo := rest[..|rest| - |Ext|];
      assert fname == [fname[0]] + fname[1..k] + [fname[k]] + rest;
      assert fname[1..k] == digits;
      assert rest == algo + Ext;
    }
  }

  /** Every name of the accepted shape is parsed back into its parts. */
  lemma ParseNameRoundTrip(digits: string, algo: string)
    requires digits != [] && AllDigits(digits) && algo != [] && AllWord(algo)
    ensures ParseName("W" + digits + "_" + algo + Ext) == Some((DigitsValue(digits), algo))
  {
    var fname := "W" + digits + "_" + algo + Ext;
    NameParts(digits, algo);
    LeadingDigitsOfConcat(digits, "_" + algo + Ext);
  }

  /** Where the parts of a run file name sit. */
  lemma NameParts(digits: string, algo: string)
    ensures var fname := "W" + digits + "_" + algo + Ext;
            var rest := fname[1 + |digits| + 1..];
            fname[0] == 'W' && fname[1..] == digits + ("_" + algo + Ext) && fname[1 + |digits|] == '_'
            && rest == algo + Ext && rest[|rest| - |Ext|..] == Ext && rest[..|rest| - |Ext|] == algo
  {
  }

  // ---------------------------------------------------------------------
  // Collecting the run logs
  // ---------------------------------------------------------------------

  /** One row of a run log: the columns the builder relies on. */
  datatype RawRow = RawRow(queueLen: int, responseMs: real)

  /** One `.csv` file of the raw directory, as `read_csv` returns it;
      `hasColumns` says whether both `response_ms` and `queue_len` exist. */
  datatype RawRun = RawRun(name: string, hasColumns: bool, rows: seq<RawRow>)

  /** A row tagged with `workload_id` and `algo_run`. */
  datatype Row = Row(workload: nat, algoRun: string, queueLen: int, responseMs: real)

  /** The workload and algorithm of a file the builder uses, None for a
      file it skips. */
  function Selected(name: string): (r: Option<(nat, string)>)
    ensures r.Some? <==> ParseName(name).Some? && ParseName(name).value.1 in Algos
    ensures r.Some? ==> r == ParseName(name)
  {
    match ParseName(name)
    case None => None
    case Some((w, algo)) => if algo in Algos then Some((w, algo)) else None
  }

  function Tagged(w: nat, algo: string, rows: seq<RawRow>): (r: seq<Row>)
    ensures |r| == |rows|
    ensures forall i :: 0 <= i < |r| ==> r[i] == Row(w, algo, rows[i].queueLen, rows[i].responseMs)
  {
    if rows == [] then [] else Tagged(w, algo, rows[..|rows| - 1]) + [Row(w, algo, rows[|rows| - 1].queueLen, rows[|rows| - 1].responseMs)]
  }

  /** A file the builder uses that lacks a required column. */
  predicate Broken(run: RawRun)
  {
    Selected(run.name).Some? && !run.hasColumns
  }

  /** The frames the loop appends, in directory order; None once a used file
      lacks a required column (the ValueError). */
  function Frames(runs: seq<RawRun>): Option<seq<seq<Row>>>
  {
    if runs == [] then Some([]) else Step(Frames(runs[..|runs| - 1]), runs[|runs| - 1])
  }

  /** The loop raises exactly when some used file is broken. */
  lemma {:induction false} FramesNoneIff(runs: seq<RawRun>)
    ensures Frames(runs).None? <==> exists i :: 0 <= i < |runs| && Broken(runs[i])
  {
    if runs != [] {
      var n := |runs| - 1;
      var prefix := runs[..n];
      FramesNoneIff(prefix);
      StepNone(Frames(prefix), runs[n]);
      ExistsInPrefix(runs, prefix, Broken);
    }
  }

  /** A step fails when the loop had already failed or the file is broken. */
  lemma StepNone(before: Option<seq<seq<Row>>>, run: RawRun)
    ensures Step(before, run).None? <==> before.None? || Broken(run)
  {
  }

  /** An element of a non-empty sequence with property `p` is among all but
      its last element, or is its last element. */
  lemma ExistsInPrefix<T>(s: seq<T>, prefix: seq<T>, p: T -> bool)
    requires s != [] && prefix == s[..|s| - 1]
    ensures (exists i :: 0 <= i < |s| && p(s[i]))
            <==> (exists i :: 0 <= i < |prefix| && p(prefix[i])) || p(s[|s| - 1])
  {
    if exists i :: 0 <= i < |s| && p(s[i]) {
      var i :| 0 <= i < |s| && p(s[i]);
      if i < |prefix| {
        assert prefix[i] == s[i];
      }
    }
    if exists i :: 0 <= i < |prefix| && p(prefix[i]) {
      var i :| 0 <= i < |prefix| && p(prefix[i]);
      assert prefix[i] == s[i];
    }
  }

  /** Every frame row is tagged with one of the four algorithms. */
  lemma {:induction false} FramesKnownAlgos(runs: seq<RawRun>)
    ensures Frames(runs).Some? ==> forall f, row :: f in Frames(runs).value && row in f ==> row.algoRun in Algos
  {
    if runs != [] {
      FramesKnownAlgos(runs[..|runs| - 1]);
    }
  }

  /** One iteration of the loop over the files. */
  function Step(before: Option<seq<seq<Row>>>, run: RawRun): Option<seq<seq<Row>>>
  {
    match before
    case None => None
    case Some(fs) =>
      match Selected(run.name)
      case None => Some(fs)
      case Some((w, algo)) =>
        if !run.hasColumns then None else Some(fs + [Tagged(w, algo, run.rows)])
  }

  lemma FramesStep(runs: seq<RawRun>, i: nat)
    requires i < |runs|
    ensures Frames(runs[..i + 1]) == Step(Frames(runs[..i]), runs[i])
  {
    assert runs[..i + 1][..i] == runs[..i];
  }

  function Flatten(fs: seq<seq<Row>>): seq<Row>
  {
    if fs == [] then [] else Flatten(fs[..|fs| - 1]) + fs[|fs| - 1]
  }

  /** The loop over the raw files. */
  method CollectFrames(runs: seq<RawRun>) returns (frames: Option<seq<seq<Row>>>)
    ensures frames == Frames(runs)
  {
    var fs: seq<seq<Row>> := [];
    for i := 0 to |runs|
      invariant Frames(runs[..i]) == Some(fs)
    {
      FramesStep(runs, i);
      var sel := Selected(runs[i].name);
      if sel.Some? {
        if !runs[i].hasColumns {
          NoneExtends(runs, i + 1);
          return None;
        }
        fs := fs + [Tagged(sel.value.0, sel.value.1, runs[i].rows)];
      }
    }
    assert runs[..|runs|] == runs;
    frames := Some(fs);
  }

  /** An error in a prefix of the files is an error of the whole directory. */
  lemma NoneExtends(runs: seq<RawRun>, i: nat)
    requires i <= |runs|
    requires Frames(runs[..i]).None?
    ensures Frames(runs).None?
  {
    FramesNoneIff(runs[..i]);
    var k :| 0 <= k < i && Broken(runs[..i][k]);
    assert runs[k] == runs[..i][k];
    FramesNoneIff(runs);
  }

  /** `pd.concat(rows)`: fails when no file was used. */
  function Concat(frames: Option<seq<seq<Row>>>): (r: Option<seq<Row>>)
    ensures r.Some? <==> frames.Some? && frames.value != []
    ensures r.Some? ==> forall x :: x in r.value <==> exists f :: f in frames.value && x in f
  {
    match frames
    case None => None
    case Some(fs) => if fs == [] then None else (FlattenMembers(fs); Some(Flatten(fs)))
  }

  /** The concatenation holds exactly the rows of the frames. */
  lemma {:induction false} FlattenMembers(fs: seq<seq<Row>>)
    ensures forall x :: x in Flatten(fs) <==> exists f :: f in fs && x in f
  {
    if fs != [] {
      var n := |fs| - 1;
      FlattenMembers(fs[..n]);
      assert fs == fs[..n] + [fs[n]];
    }
  }

  /** The loop collects no frame, without raising, exactly when no file
      name is used. */
  lemma {:induction false} FramesEmptyIff(runs: seq<RawRun>)
    ensures Frames(runs) == Some([]) <==> forall i :: 0 <= i < |runs| ==> Selected(runs[i].name).None?
  {
    if runs != [] {
      var n := |runs| - 1;
      var prefix := runs[..n];
      FramesEmptyIff(prefix);
      assert forall i :: 0 <= i < n ==> prefix[i] == runs[i];
    }
  }

  /** The script stops with an error exactly when a used file lacks a
      required column or no file is used at all. */
  lemma ConcatFails(runs: seq<RawRun>)
    ensures Concat(Frames(runs)).None? <==>
              (exists i :: 0 <= i < |runs| && Broken(runs[i])) ||
              (forall i :: 0 <= i < |runs| ==> Selected(runs[i].name).None?)
  {
    FramesNoneIff(runs);
    FramesEmptyIff(runs);
  }

  /** `full[full["workload_id"] >= 4]`. */
  function LateWorkloads(rows: seq<Row>): (r: seq<Row>)
    ensures forall x :: x in r <==> x in rows && x.workload >= 4
    ensures forall x :: multiset(r)[x] == if x.workload >= 4 then multiset(rows)[x] else 0
  {
    if rows == [] then []
    else
      var last := rows[|rows| - 1];
      assert rows == rows[..|rows| - 1] + [last];
      LateWorkloads(rows[..|rows| - 1]) + (if last.workload >= 4 then [last] else [])
  }

  // ---------------------------------------------------------------------
  // bin_queue_len
  // ---------------------------------------------------------------------

  /** The upper bounds of the training bins. */
  const Edges: seq<int> := [5, 20, 50, 100, 200, 400]

  const BinLabels: seq<string> := ["0-5", "5-20", "20-50", "50-100", "100-200", "200-400", "400+"]

  /** Bin `i` is the half-open interval from `Edges[i-1]` (unbounded below
      for the first) up to `Edges[i]` (unbounded above for the last). */
  predicate InBin(q: int, i: nat)
    requires i < 7
  {
    (i == 0 || Edges[i - 1] <= q) && (i == 6 || q < Edges[i])
  }

  /** `bin_queue_len`. */
  function BinQueueLen(q: int): (bin: string)
    ensures bin in BinLabels
  {
    if q < 5 then "0-5"
    else if q < 20 then "5-20"
    else if q < 50 then "20-50"
    else if q < 100 then "50-100"
    else if q < 200 then "100-200"
    else if q < 400 then "200-400"
    else "400+"
  }

  /** Each label is given exactly to the queue lengths of its bin, so every
      queue length gets exactly one label. */
  lemma BinQueueLenIsBin(q: int, i: nat)
    requires i < 7
    ensures BinQueueLen(q) == BinLabels[i] <==> InBin(q, i)
  {
  }

  /** The position of `q`'s label among the bins. */
  function BinIndex(q: int): (i: nat)
    ensures i < 7 && InBin(q, i) && BinQueueLen(q) == BinLabels[i]
  {
    if q < 5 then 0 else if q < 20 then 1 else if q < 50 then 2
    else if q < 100 then 3 else if q < 200 then 4 else if q < 400 then 5 else 6
  }

  /** A longer queue never gets an earlier bin. */
  lemma BinIndexMonotone(q1: int, q2: int)
    requires q1 <= q2
    ensures BinIndex(q1) <= BinIndex(q2)
  {
  }

  // ---------------------------------------------------------------------
  // best_algo_bin
  // ---------------------------------------------------------------------

  const MinSamplesPerAlgo: nat := 50

  /** One line of `grp`: the count and the mean response time of the rows of
      one (workload, queue bin, algorithm). */
  datatype GroupStat = GroupStat(workload: nat, queueBin: string, algoRun: string, n: nat, avgRt: real)

  predicate Eligible(g: GroupStat) { g.n >= MinSamplesPerAlgo }

  function Key(g: GroupStat): (nat, string) { (g.workload, g.queueBin) }

  /** `groups[idx]` is an eligible group of `key` whose mean is no larger
      than that of any eligible group of `key` among the first `n`. */
  predicate IsBestAmong(groups: seq<GroupStat>, n: nat, key: (nat, string), idx: nat)
    requires n <= |groups|
  {
    idx < n && Eligible(groups[idx]) && Key(groups[idx]) == key
    && forall j :: 0 <= j < n && Eligible(groups[j]) && Key(groups[j]) == key ==> groups[idx].avgRt <= groups[j].avgRt
  }

  /** `best_rows`: for every (workload, queue bin) with an eligible group, the
      index of an eligible group with the smallest mean. Among equal means
      the first is kept (pandas leaves the choice to its sort). */
  method BestTable(groups: seq<GroupStat>) returns (best: map<(nat, string), nat>)
    ensures forall key :: key in best ==> IsBestAmong(groups, |groups|, key, best[key])
    ensures forall j :: 0 <= j < |groups| && Eligible(groups[j]) ==> Key(groups[j]) in best
    ensures forall key :: key in best ==> exists j :: 0 <= j < |groups| && Eligible(groups[j]) && Key(groups[j]) == key
  {
    best := map[];
    for i := 0 to |groups|
      invariant forall key :: key in best ==> IsBestAmong(groups, i, key, best[key])
      invariant forall j :: 0 <= j < i && Eligible(groups[j]) ==> Key(groups[j]) in best
    {
      var g := groups[i];
      if Eligible(g) {
        var key := Key(g);
        if key !in best || g.avgRt < groups[best[key]].avgRt {
          best := best[key := i];
        }
      }
    }
  }

  /** The algorithm chosen for each key. */
  function BestLabels(groups: seq<GroupStat>, best: map<(nat, string), nat>): (labels: map<(nat, string), string>)
    requires forall key :: key in best ==> best[key] < |groups|
    ensures labels.Keys == best.Keys
    ensures forall key :: key in labels ==> labels[key] == groups[best[key]].algoRun
  {
    map key | key in best :: groups[best[key]].algoRun
  }

  // ---------------------------------------------------------------------
  // Labelling and balancing
  // ---------------------------------------------------------------------

  /** The classes the model is trained on. */
  const Trained: seq<string> := ["RR", "SJF", "WFQ"]

  datatype LabeledRow = LabeledRow(row: Row, queueBin: string, bestAlgo: string)

  /** The labelled row the join keeps for `x`, if any. */
  function LabelOf(x: Row, labels: map<(nat, string), string>): Option<LabeledRow>
  {
    var key := (x.workload, BinQueueLen(x.queueLen));
    if key in labels && labels[key] in Trained then Some(LabeledRow(x, key.1, labels[key])) else None
  }

  /** The left join with `best_rows`, the drop of rows without a label and
      the drop of the FIFO class. */
  function Labelled(rows: seq<Row>, labels: map<(nat, string), string>): (r: seq<LabeledRow>)
    ensures forall x :: x in r ==> x.row in rows && x.queueBin == BinQueueLen(x.row.queueLen)
    ensures forall x :: x in r ==> (x.row.workload, x.queueBin) in labels && x.bestAlgo == labels[(x.row.workload, x.queueBin)]
    ensures forall x :: x in r ==> x.bestAlgo in Trained
    ensures forall x :: x in rows && (x.workload, BinQueueLen(x.queueLen)) in labels && labels[(x.workload, BinQueueLen(x.queueLen))] in Trained
              ==> LabeledRow(x, BinQueueLen(x.queueLen), labels[(x.workload, BinQueueLen(x.queueLen))]) in r
    ensures forall y :: multiset(r)[y] == if LabelOf(y.row, labels) == Some(y) then multiset(rows)[y.row] else 0
  {
    if rows == [] then []
    else
      var x := rows[|rows| - 1];
      var key := (x.workload, BinQueueLen(x.queueLen));
      assert rows == rows[..|rows| - 1] + [x];
      Labelled(rows[..|rows| - 1], labels)
        + (if key in labels && labels[key] in Trained then [LabeledRow(x, key.1, labels[key])] else [])
  }

  /** How many rows carry the class `cls`. */
  function Count(rows: seq<LabeledRow>, cls: string): (n: nat)
    ensures n <= |rows|
  {
    if rows == [] then 0
    else Count(rows[..|rows| - 1], cls) + (if rows[|rows| - 1].bestAlgo == cls then 1 else 0)
  }

  lemma {:induction false} CountAppend(a: seq<LabeledRow>, b: seq<LabeledRow>, cls: string)
    ensures Count(a + b, cls) == Count(a, cls) + Count(b, cls)
  {
    if b != [] {
      assert (a + b)[..|a + b| - 1] == a + b[..|b| - 1];
      assert (a + b)[|a + b| - 1] == b[|b| - 1];
      CountAppend(a, b[..|b| - 1], cls);
    } else {
      assert a + b == a;
    }
  }

  /** In rows that all carry `c`, `c` is counted for every row and no other
      cls is counted. */
  lemma {:induction false} CountUniform(rows: seq<LabeledRow>, c: string, cls: string)
    requires forall x :: x in rows ==> x.bestAlgo == c
    ensures Count(rows, cls) == if cls == c then |rows| else 0
  {
    if rows != [] {
      assert forall x :: x in rows[..|rows| - 1] ==> x in rows;
      CountUniform(rows[..|rows| - 1], c, cls);
    }
  }

  /** The labels present, in order of first appearance (`value_counts().index`
      up to order). */
  function Classes(rows: seq<LabeledRow>): seq<string>
  {
    if rows == [] then []
    else
      var cs := Classes(rows[..|rows| - 1]);
      if rows[|rows| - 1].bestAlgo in cs then cs else cs + [rows[|rows| - 1].bestAlgo]
  }

  /** The classes are exactly the labels that occur. */
  lemma {:induction false} ClassesPresent(rows: seq<LabeledRow>)
    ensures forall l :: l in Classes(rows) <==> exists x :: x in rows && x.bestAlgo == l
  {
    if rows != [] {
      var x := rows[|rows| - 1];
      ClassesPresent(rows[..|rows| - 1]);
      assert rows == rows[..|rows| - 1] + [x];
    }
  }

  /** Each class is listed once. */
  lemma {:induction false} ClassesDistinct(rows: seq<LabeledRow>)
    ensures forall i, j :: 0 <= i < j < |Classes(rows)| ==> Classes(rows)[i] != Classes(rows)[j]
  {
    if rows != [] {
      ClassesDistinct(rows[..|rows| - 1]);
    }
  }

  /** `full[full["best_algo_bin"] == c]`. */
  function Part(rows: seq<LabeledRow>, c: string): seq<LabeledRow>
  {
    if rows == [] then []
    else Part(rows[..|rows| - 1], c) + (if rows[|rows| - 1].bestAlgo == c then [rows[|rows| - 1]] else [])
  }

  /** The part of `c` holds the rows of class `c`, each as often as in the
      frame, and so has as many rows as `c` counts. */
  lemma PartRows(rows: seq<LabeledRow>, c: string)
    ensures forall x :: x in Part(rows, c) ==> x.bestAlgo == c
    ensures forall x: LabeledRow :: x.bestAlgo == c ==> multiset(Part(rows, c))[x] == multiset(rows)[x]
    ensures |Part(rows, c)| == Count(rows, c)
  {
    PartOfClass(rows, c);
    PartKeepsClassRows(rows, c);
    PartSize(rows, c);
  }

  lemma {:induction false} PartOfClass(rows: seq<LabeledRow>, c: string)
    ensures forall x :: x in Part(rows, c) ==> x.bestAlgo == c
  {
    if rows != [] {
      PartOfClass(rows[..|rows| - 1], c);
    }
  }

  lemma {:induction false} PartKeepsClassRows(rows: seq<LabeledRow>, c: string)
    ensures forall x: LabeledRow :: x.bestAlgo == c ==> multiset(Part(rows, c))[x] == multiset(rows)[x]
  {
    if rows != [] {
      PartKeepsClassRows(rows[..|rows| - 1], c);
      assert rows == rows[..|rows| - 1] + [rows[|rows| - 1]];
    }
  }

  lemma {:induction false} PartSize(rows: seq<LabeledRow>, c: string)
    ensures |Part(rows, c)| == Count(rows, c)
  {
    if rows != [] {
      PartSize(rows[..|rows| - 1], c);
    }
  }

  lemma CountPositive(rows: seq<LabeledRow>, c: string)
    requires c in Classes(rows)
    ensures Count(rows, c) >= 1
  {
    ClassesPresent(rows);
    PartRows(rows, c);
    var x :| x in rows && x.bestAlgo == c;
    assert multiset(Part(rows, c))[x] == multiset(rows)[x] > 0;
  }

  /** A sampler draws `k` rows from a frame: a sub-multiset of size `k`
      whenever the frame has at least `k` rows (`sample(k, random_state=42)`). */
  ghost predicate IsSampler(sample: (seq<LabeledRow>, nat) -> seq<LabeledRow>)
  {
    forall s, k: nat :: k <= |s| ==> |sample(s, k)| == k && multiset(sample(s, k)) <= multiset(s)
  }

  /** The balancing step: each class is cut down to the size of the smallest
      class with the given sampler, and the parts are concatenated. It fails
      (pandas raises) when there is no row at all. */
  method Balance(rows: seq<LabeledRow>, sample: (seq<LabeledRow>, nat) -> seq<LabeledRow>)
    returns (balanced: Option<seq<LabeledRow>>, minCount: nat)
    requires IsSampler(sample)
    ensures balanced.None? <==> rows == []
    ensures rows != [] ==> exists c :: c in Classes(rows) && Count(rows, c) == minCount
    ensures forall c :: c in Classes(rows) ==> minCount <= Count(rows, c)
    ensures balanced.Some? ==> forall c :: Count(balanced.value, c) == if c in Classes(rows) then minCount else 0
    ensures balanced.Some? ==> multiset(balanced.value) <= multiset(rows)
  {
    if rows == [] {
      return None, 0;
    }
    var classes := Classes(rows);
    minCount := MinCount(rows, classes);
    var out: seq<LabeledRow> := [];
    for i := 0 to |classes|
      invariant CountsSoFar(out, classes[..i], minCount)
      invariant WithinRows(out, rows, classes[..i])
    {
      var c := classes[i];
      var part := Part(rows, c);
      if |part| > minCount {
        part := sample(part, minCount);
      }
      SampledPart(rows, c, part, minCount, sample);
      NotYetDone(rows, i);
      AddPart(rows, classes, i, out, part, minCount);
      out := out + part;
    }
    assert classes[..|classes|] == classes;
    WithinRowsAll(out, rows, classes);
    balanced := Some(out);
  }

  /** Every class listed in `done` has `minCount` rows in `out`, no other
      class has any. */
  ghost predicate CountsSoFar(out: seq<LabeledRow>, done: seq<string>, minCount: nat)
  {
    forall c :: Count(out, c) == if c in done then minCount else 0
  }

  /** `out` takes rows of the listed classes only, none more often than the
      frame holds it. */
  ghost predicate WithinRows(out: seq<LabeledRow>, rows: seq<LabeledRow>, done: seq<string>)
  {
    forall x: LabeledRow :: multiset(out)[x] <= if x.bestAlgo in done then multiset(rows)[x] else 0
  }

  lemma WithinRowsAll(out: seq<LabeledRow>, rows: seq<LabeledRow>, done: seq<string>)
    requires WithinRows(out, rows, done)
    ensures multiset(out) <= multiset(rows)
  {
    forall x ensures multiset(out)[x] <= multiset(rows)[x] {
    }
  }

  /** The part of a class as the loop keeps it: exactly `minCount` of that
      class's rows. */
  lemma SampledPart(rows: seq<LabeledRow>, c: string, part: seq<LabeledRow>, minCount: nat, sample: (seq<LabeledRow>, nat) -> seq<LabeledRow>)
    requires IsSampler(sample) && c in Classes(rows) && minCount <= Count(rows, c)
    requires part == if |Part(rows, c)| > minCount then sample(Part(rows, c), minCount) else Part(rows, c)
    ensures |part| == minCount && multiset(part) <= multiset(Part(rows, c))
  {
    PartRows(rows, c);
  }

  /** `class_counts.min()`. */
  method MinCount(rows: seq<LabeledRow>, classes: seq<string>) returns (m: nat)
    requires classes != []
    ensures exists c :: c in classes && Count(rows, c) == m
    ensures forall c :: c in classes ==> m <= Count(rows, c)
  {
    m := Count(rows, classes[0]);
    for i := 1 to |classes|
      invariant exists c :: c in classes[..i] && Count(rows, c) == m
      invariant forall c :: c in classes[..i] ==> m <= Count(rows, c)
    {
      assert classes[..i + 1] == classes[..i] + [classes[i]];
      var n := Count(rows, classes[i]);
      if n < m {
        m := n;
      }
    }
    assert classes[..|classes|] == classes;
  }

  /** One step of the balancing loop keeps its two invariants. */
  lemma AddPart(rows: seq<LabeledRow>, classes: seq<string>, i: nat, out: seq<LabeledRow>, part: seq<LabeledRow>, minCount: nat)
    requires i < |classes| && classes[i] !in classes[..i]
    requires |part| == minCount
    requires multiset(part) <= multiset(Part(rows, classes[i]))
    requires CountsSoFar(out, classes[..i], minCount)
    requires WithinRows(out, rows, classes[..i])
    ensures CountsSoFar(out + part, classes[..i + 1], minCount)
    ensures WithinRows(out + part, rows, classes[..i + 1])
  {
    var c, done := classes[i], classes[..i];
    SliceSnoc(classes, i);
    DrawnFromPart(rows, c, part);
    AddPartCounts(out, part, done, c, classes[..i + 1], minCount);
    AddPartWithin(out, part, rows, done, c, classes[..i + 1]);
  }

  lemma SliceSnoc<T>(s: seq<T>, i: nat)
    requires i < |s|
    ensures s[..i + 1] == s[..i] + [s[i]]
  {
  }

  /** The class handled at step `i` was not handled before. */
  lemma NotYetDone(rows: seq<LabeledRow>, i: nat)
    requires i < |Classes(rows)|
    ensures Classes(rows)[i] !in Classes(rows)[..i]
  {
    ClassesDistinct(rows);
  }

  /** Rows drawn from the part of `c` are of class `c`, none more often than
      the frame holds it. */
  lemma DrawnFromPart(rows: seq<LabeledRow>, c: string, part: seq<LabeledRow>)
    requires multiset(part) <= multiset(Part(rows, c))
    ensures forall x :: x in part ==> x.bestAlgo == c
    ensures forall x: LabeledRow :: x.bestAlgo == c ==> multiset(part)[x] <= multiset(rows)[x]
  {
    PartRows(rows, c);
    forall x | x in part ensures x.bestAlgo == c {
      assert multiset(Part(rows, c))[x] > 0;
    }
  }

  lemma AddPartCounts(out: seq<LabeledRow>, part: seq<LabeledRow>, done: seq<string>, c: string, after: seq<string>, minCount: nat)
    requires c !in done && after == done + [c] && |part| == minCount
    requires forall x :: x in part ==> x.bestAlgo == c
    requires CountsSoFar(out, done, minCount)
    ensures CountsSoFar(out + part, after, minCount)
  {
    forall l ensures Count(out + part, l) == if l in done + [c] then minCount else 0 {
      CountAppend(out, part, l);
      CountUniform(part, c, l);
    }
  }

  lemma AddPartWithin(out: seq<LabeledRow>, part: seq<LabeledRow>, rows: seq<LabeledRow>, done: seq<string>, c: string, after: seq<string>)
    requires c !in done && after == done + [c]
    requires forall x :: x in part ==> x.bestAlgo == c
    requires forall x: LabeledRow :: x.bestAlgo == c ==> multiset(part)[x] <= multiset(rows)[x]
    requires WithinRows(out, rows, done)
    ensures WithinRows(out + part, rows, after)
  {
    forall x ensures multiset(out + part)[x] <= if x.bestAlgo in done + [c] then multiset(rows)[x] else 0 {
      if x.bestAlgo == c {
        assert multiset(out)[x] == 0;
      } else {
        assert x !in part;
      }
    }
  }
}
