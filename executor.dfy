/** The ColonyOS anomaly executor's own logic (executor.py of the
    12-anomaly-detection tutorial) and the reference-versus-sample script of
    the 11-anomaly-detection detector test. */
module Executor {
  import opened Wrappers
  import opened Injection
  import opened Detector

  /** `AnomalyDetectorExecutor`, reduced to the field its detection uses.
      The reference wave is fixed once, at construction, from the
      `normal_wave` column of a freshly generated sample. */
  class AnomalyDetectorExecutor {
    var referenceWave: seq<real>

    /** `__init__`: generates a sample with the default anomaly duration 100 and drop
        0.2 and keeps its normal wave as the reference. The sine and the
        random draws are inputs. */
    constructor (time: seq<real>, normalWave: seq<real>, draws: seq<bool>)
      requires |normalWave| == |time| == |draws|
      ensures referenceWave == normalWave
    {
      var referenceDf, _ := GenerateSingleSample(time, normalWave, draws,
                                                 DefaultAnomalyDuration, DefaultAnomalyDrop);
      referenceWave := referenceDf.normalWave;
    }

    /** `detect_anomaly`: the divergence of the reference histogram from the
        sample histogram, and whether it is strictly above the threshold. It
        only reads the reference. */
    function DetectAnomaly(num: Numerics, sampleWave: seq<real>, klThreshold: real): (d: Detection)
      reads this
      ensures d.klDiv == num.entropy(ComputeHistogram(num, referenceWave, DefaultBins).hist,
                                     ComputeHistogram(num, sampleWave, DefaultBins).hist)
      ensures d.anomalyDetected <==> d.klDiv > klThreshold
    {
      Detect(num, referenceWave, sampleWave, klThreshold)
    }
  }

  /** An executor checks its own reference as normal whatever the draws were,
      for a non-negative threshold and a divergence that is 0 on equal
      arguments. */
  method ExecutorSelfCheck(num: Numerics, time: seq<real>, normalWave: seq<real>, draws: seq<bool>)
    returns (d: Detection)
    requires |normalWave| == |time| == |draws|
    requires var h := ComputeHistogram(num, normalWave, DefaultBins).hist; num.entropy(h, h) == 0.0
    ensures !d.anomalyDetected && d.klDiv == 0.0
  {
    var executor := new AnomalyDetectorExecutor(time, normalWave, draws);
    d := executor.DetectAnomaly(num, normalWave, DefaultKlThreshold);
  }

  /** The script of the detector test: generate one sample, take its normal
      wave as the reference, and score its anomaly wave against it with the
      default threshold. When no draw fires the anomaly wave is the normal
      wave, so with a divergence that is 0 on equal arguments the verdict
      is "no anomaly". */
  method ReferenceVsSample(num: Numerics, time: seq<real>, normalWave: seq<real>, draws: seq<bool>)
    returns (sample: Sample, r: Result<Detection, DetectError>)
    requires |normalWave| == |time| == |draws|
    ensures sample.normalWave == normalWave
    ensures r == Success(Detect(num, normalWave, sample.anomalyWave, DefaultKlThreshold))
    ensures (forall i :: 0 <= i < |draws| ==> !draws[i]) ==> sample.anomalyWave == normalWave
    ensures (forall i :: 0 <= i < |draws| ==> !draws[i]) &&
            (var h := ComputeHistogram(num, normalWave, DefaultBins).hist; num.entropy(h, h) == 0.0)
            ==> !r.value.anomalyDetected
  {
    var starts;
    sample, starts := GenerateSingleSample(time, normalWave, draws,
                                           DefaultAnomalyDuration, DefaultAnomalyDrop);
    var detector := new ReferenceDetector();
    detector.SetReferenceWave(sample.normalWave);
    r := detector.DetectAnomaly(num, sample.anomalyWave, DefaultKlThreshold);
    if forall i :: 0 <= i < |draws| ==> !draws[i] {
      NoDrawNoAnomaly(sample, starts, draws, DefaultAnomalyDuration, DefaultAnomalyDrop);
    }
  }
}
