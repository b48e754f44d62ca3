/** Predictions and the classification metrics of the calibration script
    (`anomaly_predictions = kls > threshold`, and sklearn's accuracy,
    precision, recall and F1 for the positive label 1). */
module Metrics {

  /** `np.array(kl_divergences) > kl_threshold`. */
  function Predict(kls: seq<real>, threshold: real): (preds: seq<bool>)
    ensures |preds| == |kls|
  {
    seq(|kls|, k requires 0 <= k < |kls| => kls[k] > threshold)
  }

  /** The comparison is strict: a divergence equal to the threshold is
      predicted normal, and every divergence above it anomalous. */
  lemma PredictStrict(kls: seq<real>, threshold: real, k: nat)
    requires k < |kls|
    ensures Predict(kls, threshold)[k] <==> kls[k] > threshold
    ensures kls[k] == threshold ==> !Predict(kls, threshold)[k]
  {
  }

  /** Confusion counts of ground truth against predictions; a ground truth
      equal to 1 is positive. */
  datatype Confusion = Confusion(tp: nat, fp: nat, fn: nat, tn: nat)

  /** The cell of one chunk. */
  function CountOne(truth: int, pred: bool): (c: Confusion)
  {
    if truth == 1 && pred then Confusion(1, 0, 0, 0)
    else if pred then Confusion(0, 1, 0, 0)
    else if truth == 1 then Confusion(0, 0, 1, 0)
    else Confusion(0, 0, 0, 1)
  }

  function Add(a: Confusion, b: Confusion): (c: Confusion)
  {
    Confusion(a.tp + b.tp, a.fp + b.fp, a.fn + b.fn, a.tn + b.tn)
  }

  function Count(truth: seq<int>, preds: seq<bool>): (c: Confusion)
    requires |truth| == |preds|
    ensures c.tp + c.fp + c.fn + c.tn == |truth|
  {
    if |truth| == 0 then Confusion(0, 0, 0, 0)
    else Add(CountOne(truth[0], preds[0]), Count(truth[1..], preds[1..]))
  }

  /** Every chunk falls in exactly one cell: predicted positives are
      tp + fp, actual positives are tp + fn, and matches are tp + tn. */
  lemma CountCells(truth: seq<int>, preds: seq<bool>)
    requires |truth| == |preds|
    ensures Count(truth, preds).tp + Count(truth, preds).fp == NumTrue(preds)
    ensures Count(truth, preds).tp + Count(truth, preds).fn == NumOnes(truth)
    ensures Count(truth, preds).tp + Count(truth, preds).tn == Matches(truth, preds)
  {
    PredictedPositives(truth, preds);
    ActualPositives(truth, preds);
    MatchCount(truth, preds);
  }

  lemma {:induction false} PredictedPositives(truth: seq<int>, preds: seq<bool>)
    requires |truth| == |preds|
    ensures Count(truth, preds).tp + Count(truth, preds).fp == NumTrue(preds)
  {
    if |truth| > 0 {
      PredictedPositives(truth[1..], preds[1..]);
    }
  }

  lemma {:induction false} ActualPositives(truth: seq<int>, preds: seq<bool>)
    requires |truth| == |preds|
    ensures Count(truth, preds).tp + Count(truth, preds).fn == NumOnes(truth)
  {
    if |truth| > 0 {
      ActualPositives(truth[1..], preds[1..]);
    }
  }

  lemma {:induction false} MatchCount(truth: seq<int>, preds: seq<bool>)
    requires |truth| == |preds|
    ensures Count(truth, preds).tp + Count(truth, preds).tn == Matches(truth, preds)
  {
    if |truth| > 0 {
      MatchCount(truth[1..], preds[1..]);
    }
  }

  function NumTrue(preds: seq<bool>): (n: nat)
  {
    if |preds| == 0 then 0 else (if preds[0] then 1 else 0) + NumTrue(preds[1..])
  }

  function NumOnes(truth: seq<int>): (n: nat)
  {
    if |truth| == 0 then 0 else (if truth[0] == 1 then 1 else 0) + NumOnes(truth[1..])
  }

  /** Chunks whose prediction agrees with the ground truth. */
  function Matches(truth: seq<int>, preds: seq<bool>): (n: nat)
    requires |truth| == |preds|
  {
    if |truth| == 0 then 0
    else (if (truth[0] == 1) == preds[0] then 1 else 0) + Matches(truth[1..], preds[1..])
  }

  /** A ratio of a part to a positive whole lies in [0, 1] and is 1 only
      for the whole. */
  lemma Ratio(part: real, whole: real)
    requires 0.0 <= part <= whole && whole > 0.0
    ensures 0.0 <= part / whole <= 1.0
    ensures part / whole == 1.0 <==> part == whole
  {
    var q := part / whole;
    assert q * whole == part;
    assert (1.0 - q) * whole == whole - part;
    if part == whole {
      DivSelf(whole);
    }
  }

  lemma DivSelf(w: real)
    requires w > 0.0
    ensures w / w == 1.0
  {
  }

  /** `accuracy_score`: matches over chunks. */
  function Accuracy(c: Confusion): (a: real)
    requires c.tp + c.fp + c.fn + c.tn > 0
    ensures 0.0 <= a <= 1.0
    ensures a == 1.0 <==> c.fp + c.fn == 0
  {
    Ratio((c.tp + c.tn) as real, (c.tp + c.fp + c.fn + c.tn) as real);
    (c.tp + c.tn) as real / (c.tp + c.fp + c.fn + c.tn) as real
  }

  /** `precision_score`: tp / (tp + fp); with no predicted positive sklearn
      returns its `zero_division` value instead. */
  function Precision(c: Confusion, zeroDivision: real): (p: real)
    ensures c.tp + c.fp == 0 ==> p == zeroDivision
    ensures c.tp + c.fp > 0 ==> 0.0 <= p <= 1.0 && (p == 1.0 <==> c.fp == 0)
  {
    if c.tp + c.fp == 0 then zeroDivision
    else
      Ratio(c.tp as real, (c.tp + c.fp) as real);
      c.tp as real / (c.tp + c.fp) as real
  }

  /** `recall_score`: tp / (tp + fn), or `zero_division` with no actual positive. */
  function Recall(c: Confusion, zeroDivision: real): (r: real)
    ensures c.tp + c.fn == 0 ==> r == zeroDivision
    ensures c.tp + c.fn > 0 ==> 0.0 <= r <= 1.0 && (r == 1.0 <==> c.fn == 0)
  {
    if c.tp + c.fn == 0 then zeroDivision
    else
      Ratio(c.tp as real, (c.tp + c.fn) as real);
      c.tp as real / (c.tp + c.fn) as real
  }

  /** `f1_score`: 2tp / (2tp + fp + fn), or `zero_division` when that is 0/0. */
  function F1(c: Confusion, zeroDivision: real): (f: real)
    ensures 2 * c.tp + c.fp + c.fn == 0 ==> f == zeroDivision
    ensures 2 * c.tp + c.fp + c.fn > 0 ==> 0.0 <= f <= 1.0 && (f == 1.0 <==> c.fp + c.fn == 0)
  {
    if 2 * c.tp + c.fp + c.fn == 0 then zeroDivision
    else
      Ratio((2 * c.tp) as real, (2 * c.tp + c.fp + c.fn) as real);
      (2 * c.tp) as real / (2 * c.tp + c.fp + c.fn) as real
  }

  /** F1 is the harmonic mean of precision and recall whenever there is a
      true positive. */
  lemma F1IsHarmonicMean(c: Confusion, zeroDivision: real)
    requires c.tp > 0
    ensures var p, r := Precision(c, zeroDivision), Recall(c, zeroDivision);
            p + r > 0.0 && F1(c, zeroDivision) == 2.0 * p * r / (p + r)
  {
    var t, a, b := c.tp as real, (c.tp + c.fp) as real, (c.tp + c.fn) as real;
    var p, r := t / a, t / b;
    assert p * a == t && r * b == t;
    assert p + r == t * (a + b) / (a * b);
    assert 2.0 * p * r == 2.0 * t * t / (a * b);
    assert 2.0 * p * r / (p + r) == 2.0 * t / (a + b);
    assert a + b == (2 * c.tp + c.fp + c.fn) as real;
  }

  /** When every prediction equals its ground truth and some chunk is
      positive, accuracy, precision, recall and F1 are all 1. */
  lemma PerfectPrediction(truth: seq<int>, preds: seq<bool>, zeroDivision: real)
    requires |truth| == |preds| > 0
    requires forall k :: 0 <= k < |truth| ==> (preds[k] <==> truth[k] == 1)
    requires exists k :: 0 <= k < |truth| && truth[k] == 1
    ensures var c := Count(truth, preds);
            && Accuracy(c) == 1.0 && Precision(c, zeroDivision) == 1.0
            && Recall(c, zeroDivision) == 1.0 && F1(c, zeroDivision) == 1.0
  {
    var c := Count(truth, preds);
    NoErrors(truth, preds);
    PositiveCounted(truth, preds);
    assert c.fp == 0 && c.fn == 0 && c.tp > 0;
  }

  lemma {:induction false} NoErrors(truth: seq<int>, preds: seq<bool>)
    requires |truth| == |preds|
    requires forall k :: 0 <= k < |truth| ==> (preds[k] <==> truth[k] == 1)
    ensures Count(truth, preds).fp == 0 && Count(truth, preds).fn == 0
  {
    if |truth| > 0 {
      var rest := Count(truth[1..], preds[1..]);
      NoErrors(truth[1..], preds[1..]);
      assert preds[0] <==> truth[0] == 1;
      assert Count(truth, preds) == Add(CountOne(truth[0], preds[0]), rest);
    }
  }

  lemma {:induction false} PositiveCounted(truth: seq<int>, preds: seq<bool>)
    requires |truth| == |preds|
    requires forall k :: 0 <= k < |truth| ==> (preds[k] <==> truth[k] == 1)
    requires exists k :: 0 <= k < |truth| && truth[k] == 1
    ensures Count(truth, preds).tp > 0
  {
    if truth[0] != 1 {
      var k :| 0 <= k < |truth| && truth[k] == 1;
      assert truth[1..][k - 1] == 1;
      PositiveCounted(truth[1..], preds[1..]);
    }
  }
}
