/** The bookkeeping of `evaluate`: gather every batch's true and predicted
    labels in loader order and average the per-batch losses. The model's
    forward pass is abstract: a validation batch is its labels, the
    predictions made for it and its loss. */
module Evaluation {
  import opened Errors

  /** One validation batch as the loop sees it. */
  datatype EvalBatch = EvalBatch(labels: seq<int>, preds: seq<int>, loss: real)

  /** Mean loss and the corpus-level label lists the classification report is computed from. */
  datatype EvalOutcome = EvalOutcome(meanLoss: real, labels: seq<int>, preds: seq<int>)

  /** All true labels, batch after batch. */
  function Labels(bs: seq<EvalBatch>): seq<int>
    decreases |bs|
  {
    if |bs| == 0 then [] else Labels(bs[..|bs| - 1]) + bs[|bs| - 1].labels
  }

  /** All predicted labels, batch after batch. */
  function Preds(bs: seq<EvalBatch>): seq<int>
    decreases |bs|
  {
    if |bs| == 0 then [] else Preds(bs[..|bs| - 1]) + bs[|bs| - 1].preds
  }

  function LossSum(bs: seq<EvalBatch>): real
    decreases |bs|
  {
    if |bs| == 0 then 0.0 else LossSum(bs[..|bs| - 1]) + bs[|bs| - 1].loss
  }

  /** The validation loss: the per-batch losses summed, over the number of batches. */
  function MeanLoss(bs: seq<EvalBatch>): real
    requires |bs| > 0
  {
    LossSum(bs) / |bs| as real
  }

  /** `evaluate`: a loader with no batch leaves `val_step` unbound;
      otherwise the mean loss and the gathered label lists. */
  method Evaluate(batches: seq<EvalBatch>) returns (r: Result<EvalOutcome>)
    ensures |batches| == 0 ==> r == Err(UnboundLocalError("val_step"))
    ensures |batches| > 0 ==> r == Ok(EvalOutcome(MeanLoss(batches), Labels(batches), Preds(batches)))
  {
    var valLoss := 0.0;
    var totalY: seq<int> := [];
    var totalYHat: seq<int> := [];
    var valStep: Option<nat> := None;
    for i := 0 to |batches|
      invariant totalY == Labels(batches[..i])
      invariant totalYHat == Preds(batches[..i])
      invariant valLoss == LossSum(batches[..i])
      invariant valStep == if i == 0 then None else Some(i - 1)
    {
      valStep := Some(i);
      assert batches[..i + 1][..i] == batches[..i];
      totalY := totalY + batches[i].labels;
      totalYHat := totalYHat + batches[i].preds;
      valLoss := valLoss + batches[i].loss;
    }
    assert batches[..|batches|] == batches;
    if valStep.None? {
      return Err(UnboundLocalError("val_step"));
    }
    valLoss := valLoss / (valStep.value + 1) as real;
    return Ok(EvalOutcome(valLoss, totalY, totalYHat));
  }

  lemma {:induction false} LabelsAppend(a: seq<EvalBatch>, b: seq<EvalBatch>)
    ensures Labels(a + b) == Labels(a) + Labels(b)
    decreases |b|
  {
    if |b| == 0 {
      assert a + b == a;
    } else {
      var n := |b| - 1;
      var ab := a + b;
      assert Labels(ab) == Labels(a + b[..n]) + b[n].labels by {
        assert ab[..|ab| - 1] == a + b[..n] && ab[|ab| - 1] == b[n];
      }
      LabelsAppend(a, b[..n]);
    }
  }

  lemma {:induction false} PredsAppend(a: seq<EvalBatch>, b: seq<EvalBatch>)
    ensures Preds(a + b) == Preds(a) + Preds(b)
    decreases |b|
  {
    if |b| == 0 {
      assert a + b == a;
    } else {
      var n := |b| - 1;
      var ab := a + b;
      assert Preds(ab) == Preds(a + b[..n]) + b[n].preds by {
        assert ab[..|ab| - 1] == a + b[..n] && ab[|ab| - 1] == b[n];
      }
      PredsAppend(a, b[..n]);
    }
  }

  /** Gathering keeps loader order: the labels (and predictions) of two
      runs of batches are those of the first followed by those of the second. */
  lemma GatheredInOrder(a: seq<EvalBatch>, b: seq<EvalBatch>)
    ensures Labels(a + b) == Labels(a) + Labels(b)
    ensures Preds(a + b) == Preds(a) + Preds(b)
  {
    LabelsAppend(a, b);
    PredsAppend(a, b);
  }

  /** When the model predicts once per label in every batch, the two
      gathered lists line up position by position. */
  lemma {:induction false} GatheredAligned(bs: seq<EvalBatch>)
    requires forall i :: 0 <= i < |bs| ==> |bs[i].labels| == |bs[i].preds|
    ensures |Labels(bs)| == |Preds(bs)|
    decreases |bs|
  {
    if |bs| > 0 {
      GatheredAligned(bs[..|bs| - 1]);
    }
  }

  lemma {:induction false} LossSumBounds(bs: seq<EvalBatch>, lo: real, hi: real)
    requires forall i :: 0 <= i < |bs| ==> lo <= bs[i].loss <= hi
    ensures |bs| as real * lo <= LossSum(bs) <= |bs| as real * hi
    decreases |bs|
  {
    if |bs| > 0 {
      var n := |bs| - 1;
      LossSumBounds(bs[..n], lo, hi);
      assert (n + 1) as real * lo == n as real * lo + lo;
      assert (n + 1) as real * hi == n as real * hi + hi;
    }
  }

  /** The validation loss lies between the smallest and the largest batch
      loss, and is that loss when every batch reports the same one. */
  lemma MeanLossBounds(bs: seq<EvalBatch>, lo: real, hi: real)
    requires |bs| > 0
    requires forall i :: 0 <= i < |bs| ==> lo <= bs[i].loss <= hi
    ensures lo <= MeanLoss(bs) <= hi
  {
    LossSumBounds(bs, lo, hi);
    var n := |bs| as real;
    assert LossSum(bs) / n >= (n * lo) / n;
    assert LossSum(bs) / n <= (n * hi) / n;
  }
}
