/** The feature preparation of the inference service `ai/ai_infer_service.py`:
    the queue bin it derives when the caller leaves it out, and the feature
    row handed to the model. The model itself is not part of this model. */
module AiInference {
  import opened Wrappers
  import opened Text
  import MergeDataset

  /** `compute_queue_bin`: closed upper bounds 5, 20, 50, 100, 200, 400. */
  function ComputeQueueBin(q: int): (b: int)
    ensures 0 <= b <= 6
    ensures forall i :: 0 <= i < 7 ==> (b == i <==> InServiceBin(q, i))
  {
    if q <= 5 then 0
    else if q <= 20 then 1
    else if q <= 50 then 2
    else if q <= 100 then 3
    else if q <= 200 then 4
    else if q <= 400 then 5
    else 6
  }

  /** Bin `i` of the service: above `Edges[i-1]` and at most `Edges[i]`. */
  predicate InServiceBin(q: int, i: nat)
    requires i < 7
  {
    (i == 0 || MergeDataset.Edges[i - 1] < q) && (i == 6 || q <= MergeDataset.Edges[i])
  }

  /** A longer queue never gets a smaller bin. */
  lemma ComputeQueueBinMonotone(q1: int, q2: int)
    requires q1 <= q2
    ensures ComputeQueueBin(q1) <= ComputeQueueBin(q2)
  {
  }

  /** The bounds belong to the lower bin; negative lengths get bin 0. */
  lemma ComputeQueueBinBoundaries()
    ensures ComputeQueueBin(5) == 0 && ComputeQueueBin(6) == 1
    ensures ComputeQueueBin(400) == 5 && ComputeQueueBin(401) == 6
    ensures forall q :: q < 0 ==> ComputeQueueBin(q) == 0
  {
  }

  /** The service's bins and the training bins of the dataset builder
      (half-open, lower bound included) disagree exactly at the six edges:
      there the service picks the bin below the one the training data used. */
  lemma {:induction false} BinsDisagreeAtEdges(q: int)
    ensures ComputeQueueBin(q) != MergeDataset.BinIndex(q) <==> q in MergeDataset.Edges
    ensures q in MergeDataset.Edges ==> ComputeQueueBin(q) + 1 == MergeDataset.BinIndex(q)
  {
    var i := MergeDataset.BinIndex(q);
    assert MergeDataset.InBin(q, i);
    assert InServiceBin(q, ComputeQueueBin(q));
    if q in MergeDataset.Edges {
      var k :| 0 <= k < 6 && MergeDataset.Edges[k] == q;
      assert InServiceBin(q, k);
    }
  }

  /** The body of a `/predict` call. */
  datatype PredictReq = PredictReq(
    cpu: real, queueLen: int, queueBin: Option<int>,
    requestMethod: string, requestPathLength: int, estimatedWorkload: real, reqSize: int)

  /** The single-row frame handed to the model; the queue bin is passed as a
      string, as the model was trained on a categorical column. */
  datatype FeatureRow = FeatureRow(
    cpu: real, queueLen: int, queueBin: string,
    requestMethod: string, requestPathLength: int, estimatedWorkload: real, reqSize: int)

  /** The queue bin the service uses: the caller's when given, else the one
      computed from the queue length. */
  function ResolveQueueBin(req: PredictReq): (b: int)
    ensures req.queueBin.Some? ==> b == req.queueBin.value
    ensures req.queueBin.None? ==> b == ComputeQueueBin(req.queueLen) && 0 <= b <= 6
  {
    match req.queueBin
    case Some(v) => v
    case None => ComputeQueueBin(req.queueLen)
  }

  /** `predict` up to the model call: fills `queue_bin` in the request dict
      when it is missing, converts it to a string, and builds the row. */
  method PrepareFeatures(req: PredictReq) returns (row: FeatureRow)
    ensures row.queueBin == IntToDecimal(ResolveQueueBin(req))
    ensures row.cpu == req.cpu && row.queueLen == req.queueLen && row.requestMethod == req.requestMethod
    ensures row.requestPathLength == req.requestPathLength && row.estimatedWorkload == req.estimatedWorkload
    ensures row.reqSize == req.reqSize
  {
    var data := req;
    if data.queueBin.None? {
      data := data.(queueBin := Some(ComputeQueueBin(data.queueLen)));
    }
    var bin := IntToDecimal(data.queueBin.value);
    row := FeatureRow(data.cpu, data.queueLen, bin, data.requestMethod,
                      data.requestPathLength, data.estimatedWorkload, data.reqSize);
  }
}
