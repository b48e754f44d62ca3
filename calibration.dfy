/** The top level of the threshold calibration script
    (calc_kl_div_threshold.py): trimmed one-second chunks of both waves, the
    first normal chunk as reference distribution, one divergence per anomaly
    chunk, a threshold derived from the divergences, predictions, per-chunk
    ground truth and the four metrics. */
module Calibration {
  import opened Wrappers
  import opened Windowing
  import opened Metrics
  import opened Detector

  /** `chunk_size = sampling_rate = 1000`, and `step_size = 1000`. */
  const WindowSize: nat := 1000
  const StepSize: nat := 1000

  /** The columns of dataset.csv the script reads. */
  datatype Dataset = Dataset(normalWave: seq<real>, anomalyWave: seq<real>, isAnomaly: seq<int>)

  predicate WellFormed(df: Dataset)
  {
    |df.normalWave| == |df.anomalyWave| == |df.isAnomaly|
  }

  /** The divergence of the reference histogram from each chunk's. */
  function KlDivergencesOf(num: Numerics, pHist: seq<real>, chunks: seq<seq<real>>): (kls: seq<real>)
    ensures |kls| == |chunks|
  {
    seq(|chunks|, k requires 0 <= k < |chunks| =>
      num.entropy(pHist, ComputeHistogram(num, chunks[k], DefaultBins).hist))
  }

  /** The loop that appends one divergence per anomaly chunk. */
  method KlDivergences(num: Numerics, pHist: seq<real>, anomalyChunks: seq<seq<real>>)
    returns (kls: seq<real>)
    ensures |kls| == |anomalyChunks|
    ensures forall k :: 0 <= k < |kls| ==>
      kls[k] == num.entropy(pHist, ComputeHistogram(num, anomalyChunks[k], DefaultBins).hist)
  {
    kls := [];
    for i := 0 to |anomalyChunks|
      invariant |kls| == i
      invariant forall k :: 0 <= k < i ==>
        kls[k] == num.entropy(pHist, ComputeHistogram(num, anomalyChunks[k], DefaultBins).hist)
    {
      var qHist := ComputeHistogram(num, anomalyChunks[i], DefaultBins).hist;
      var klDiv := num.entropy(pHist, qHist);
      kls := kls + [klDiv];
    }
  }

  /** Why the script stops: `normal_chunks[0]` on an empty list. */
  datatype EvalError = IndexError

  /** What the script computes and prints. */
  datatype Report = Report(
    klDivergences: seq<real>, threshold: real, predictions: seq<bool>, groundTruth: seq<int>,
    accuracy: real, precision: real, recall: real, f1: real, detected: nat)

  /** The whole script. The threshold formula (`mean + 0.1 * std`) is a
      parameter, and so is sklearn's value for an undefined precision,
      recall or F1. The result is an `IndexError` exactly when the recording
      is at most one window long; otherwise every list has one entry per
      window, divergences are reference-first against the first trimmed
      normal chunk, and the metrics are those of the confusion counts. */
  method Evaluate(num: Numerics, df: Dataset, thresholdRule: seq<real> -> real, zeroDivision: real)
    returns (r: Result<Report, EvalError>)
    requires WellFormed(df)
    ensures r.Failure? <==> |df.normalWave| <= WindowSize
    ensures r.Success? ==>
      var rep := r.value;
      var normalChunks := TrimmedChunksOf(df.normalWave, WindowSize, StepSize);
      var anomalyChunks := TrimmedChunksOf(df.anomalyWave, WindowSize, StepSize);
      var pHist := ComputeHistogram(num, normalChunks[0], DefaultBins).hist;
      && |normalChunks| > 0
      && rep.klDivergences == KlDivergencesOf(num, pHist, anomalyChunks)
      && rep.threshold == thresholdRule(rep.klDivergences)
      && rep.predictions == Predict(rep.klDivergences, rep.threshold)
      && rep.groundTruth == GroundTruthOf(df.isAnomaly, WindowSize, StepSize)
      && |rep.predictions| == |rep.groundTruth| == |WindowStarts(|df.normalWave|, WindowSize, StepSize)|
      && rep.accuracy == Accuracy(Count(rep.groundTruth, rep.predictions))
      && rep.precision == Precision(Count(rep.groundTruth, rep.predictions), zeroDivision)
      && rep.recall == Recall(Count(rep.groundTruth, rep.predictions), zeroDivision)
      && rep.f1 == F1(Count(rep.groundTruth, rep.predictions), zeroDivision)
      && 0.0 <= rep.accuracy <= 1.0
      && rep.detected == NumTrue(rep.predictions)
  {
    var normalChunks := TrimmedChunks(df.normalWave, WindowSize, StepSize);
    var anomalyChunks := TrimmedChunks(df.anomalyWave, WindowSize, StepSize);
    if |normalChunks| == 0 {
      return Failure(IndexError);
    }
    var pHist := ComputeHistogram(num, normalChunks[0], DefaultBins).hist;
    var kls := KlDivergences(num, pHist, anomalyChunks);
    assert kls == KlDivergencesOf(num, pHist, anomalyChunks);
    var threshold := thresholdRule(kls);
    var predictions := Predict(kls, threshold);
    var groundTruth := GroundTruth(df.isAnomaly, WindowSize, StepSize);
    var c := Count(groundTruth, predictions);
    var rep := Report(kls, threshold, predictions, groundTruth,
                      Accuracy(c), Precision(c, zeroDivision), Recall(c, zeroDivision), F1(c, zeroDivision),
                      NumTrue(predictions));
    r := Success(rep);
  }
}
