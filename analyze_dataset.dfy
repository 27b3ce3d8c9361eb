/** The queue-length bins of the dataset report `data/merged/analyze_dataset.py`. */
module AnalyzeDataset {
  import opened Wrappers
  import opened Text

  /** An upper bound of a bin: a number, or `np.inf`. */
  datatype Bound = Finite(n: int) | Infinite

  datatype QueueBin = QueueBin(low: int, high: Bound)

  /** `QUEUE_BINS`. */
  const QueueBins: seq<QueueBin> := [
    QueueBin(0, Finite(1)), QueueBin(1, Finite(5)), QueueBin(5, Finite(10)),
    QueueBin(10, Finite(20)), QueueBin(20, Finite(50)), QueueBin(50, Finite(100)),
    QueueBin(100, Infinite)]

  /** `low <= x < high`. */
  predicate Contains(b: QueueBin, x: real)
  {
    b.low as real <= x && (b.high.Infinite? || x < b.high.n as real)
  }

  /** The f-string label of a bin, `"<low>-<high>"` or `"<low>-inf"`. */
  function BinLabel(b: QueueBin): string
  {
    IntToDecimal(b.low) + "-" + (match b.high case Finite(n) => IntToDecimal(n) case Infinite => "inf")
  }

  /** The first bin from position `i` on that contains `x`. */
  function FirstBin(x: real, i: nat): (r: Option<nat>)
    requires i <= |QueueBins|
    ensures r.Some? ==> i <= r.value < |QueueBins| && Contains(QueueBins[r.value], x)
    ensures r.Some? ==> forall j :: i <= j < r.value ==> !Contains(QueueBins[j], x)
    ensures r.None? ==> forall j :: i <= j < |QueueBins| ==> !Contains(QueueBins[j], x)
    decreases |QueueBins| - i
  {
    if i == |QueueBins| then None
    else if Contains(QueueBins[i], x) then Some(i)
    else FirstBin(x, i + 1)
  }

  /** `bin_queue_len`: the label of the first bin that contains `x`, or
      "unknown". */
  function BinQueueLen(x: real): (r: string)
    ensures forall i :: 0 <= i < |QueueBins| && Contains(QueueBins[i], x) ==> r == BinLabel(QueueBins[i])
    ensures (forall i :: 0 <= i < |QueueBins| ==> !Contains(QueueBins[i], x)) ==> r == "unknown"
  {
    match FirstBin(x, 0)
    case Some(i) => BinLabel(QueueBins[i])
    case None => "unknown"
  }

  /** The bins start at 0, each ends where the next begins, and the last is
      unbounded. */
  lemma BinsAreContiguous()
    ensures QueueBins[0].low == 0 && QueueBins[|QueueBins| - 1].high.Infinite?
    ensures forall i :: 0 <= i < |QueueBins| - 1 ==> QueueBins[i].high == Finite(QueueBins[i + 1].low)
    ensures forall i :: 0 <= i < |QueueBins| - 1 ==> QueueBins[i].low < QueueBins[i + 1].low
  {
  }

  /** Every non-negative `x` lies in exactly one bin, and that bin names it. */
  lemma {:induction false} ExactlyOneBin(x: real)
    requires x >= 0.0
    ensures FirstBin(x, 0).Some?
    ensures forall i :: 0 <= i < |QueueBins| && Contains(QueueBins[i], x) ==> i == FirstBin(x, 0).value
  {
    var k := FirstBin(x, 0);
    var j := if x < 1.0 then 0 else if x < 5.0 then 1 else if x < 10.0 then 2 else if x < 20.0 then 3
             else if x < 50.0 then 4 else if x < 100.0 then 5 else 6;
    assert Contains(QueueBins[j], x);
    forall i | 0 <= i < |QueueBins| && Contains(QueueBins[i], x) ensures i == j {
    }
  }

  lemma DecimalOf100()
    ensures IntToDecimal(100) == "100"
  {
    assert NatToDecimal(1) == "1";
    assert NatToDecimal(10) == NatToDecimal(1) + [DigitChar(0)];
    assert NatToDecimal(100) == NatToDecimal(10) + [DigitChar(0)];
  }

  /** Lengths of 100 and more are labelled "100-inf". */
  lemma LongQueues(x: real)
    requires x >= 100.0
    ensures BinQueueLen(x) == "100-inf"
  {
    assert FirstBin(x, 0) == Some(6);
    DecimalOf100();
  }

  /** Negative lengths are outside every bin and labelled "unknown". */
  lemma NegativeIsUnknown(x: real)
    requires x < 0.0
    ensures BinQueueLen(x) == "unknown"
  {
    assert FirstBin(x, 0).None?;
  }
}
