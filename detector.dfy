/** The detector: histograms with a 1e-10 floor, the divergence of the
    reference against the sample, and the strict threshold verdict
    (`compute_histogram`, `compute_kl_divergence`, `detect_anomaly`).
    `np.histogram` and `scipy.stats.entropy` are not modelled; they are passed
    in as a `Numerics` value. */
module Detector {
  import opened Wrappers

  /** The `1e-10` added to every histogram cell. */
  const Floor: real := 0.0000000001
  const DefaultBins: nat := 50
  const DefaultKlThreshold: real := 0.010199148586751076

  /** What `np.histogram(data, bins=bins, density=True)` returns: cell
      densities and bin edges. */
  datatype Histogram = Histogram(hist: seq<real>, edges: seq<real>)

  /** The two library calls the detector makes, as given functions. */
  datatype Numerics = Numerics(
    histogram: (seq<real>, nat) -> Histogram,
    entropy: (seq<real>, seq<real>) -> real)

  function AddFloor(cells: seq<real>): (r: seq<real>)
    ensures |r| == |cells|
  {
    seq(|cells|, i requires 0 <= i < |cells| => cells[i] + Floor)
  }

  /** `compute_histogram`: numpy's histogram with the floor added to every
      cell; the edges are passed through. */
  function ComputeHistogram(num: Numerics, data: seq<real>, bins: nat): (h: Histogram)
    ensures h.edges == num.histogram(data, bins).edges
    ensures |h.hist| == |num.histogram(data, bins).hist|
  {
    var raw := num.histogram(data, bins);
    Histogram(AddFloor(raw.hist), raw.edges)
  }

  function Sum(xs: seq<real>): (total: real)
  {
    if |xs| == 0 then 0.0 else xs[0] + Sum(xs[1..])
  }

  /** Every cell is the density plus 1e-10: with non-negative densities no
      cell is below 1e-10, so no cell is 0. */
  lemma HistogramFloored(num: Numerics, data: seq<real>, bins: nat, i: nat)
    requires i < |num.histogram(data, bins).hist|
    ensures ComputeHistogram(num, data, bins).hist[i] == num.histogram(data, bins).hist[i] + Floor
    ensures num.histogram(data, bins).hist[i] >= 0.0 ==>
      ComputeHistogram(num, data, bins).hist[i] >= Floor > 0.0
  {
  }

  /** The floor adds exactly (number of cells) * 1e-10 to the total mass. */
  lemma {:induction false} FloorMass(cells: seq<real>)
    ensures Sum(AddFloor(cells)) == Sum(cells) + |cells| as real * Floor
  {
    if |cells| > 0 {
      FloorMass(cells[1..]);
      assert AddFloor(cells)[1..] == AddFloor(cells[1..]);
    }
  }

  /** The verdict and the divergence `detect_anomaly` returns. */
  datatype Detection = Detection(anomalyDetected: bool, klDiv: real)

  /** `detect_anomaly` given a reference wave: the divergence takes the
      reference histogram as its FIRST argument and the sample's as its
      second, and the verdict is strictly `kl_div > kl_threshold`. */
  function Detect(num: Numerics, referenceWave: seq<real>, sampleWave: seq<real>, klThreshold: real): (d: Detection)
    ensures d.klDiv == num.entropy(ComputeHistogram(num, referenceWave, DefaultBins).hist,
                                   ComputeHistogram(num, sampleWave, DefaultBins).hist)
    ensures d.anomalyDetected <==> d.klDiv > klThreshold
  {
    var sampleHist := ComputeHistogram(num, sampleWave, DefaultBins).hist;
    var referenceHist := ComputeHistogram(num, referenceWave, DefaultBins).hist;
    var klDiv := num.entropy(referenceHist, sampleHist);
    Detection(klDiv > klThreshold, klDiv)
  }

  /** A divergence equal to the threshold is not an anomaly, and raising the
      threshold can only turn a verdict from anomalous to normal. */
  lemma VerdictMonotone(num: Numerics, referenceWave: seq<real>, sampleWave: seq<real>, t1: real, t2: real)
    requires t1 <= t2
    ensures Detect(num, referenceWave, sampleWave, t2).anomalyDetected ==>
            Detect(num, referenceWave, sampleWave, t1).anomalyDetected
    ensures Detect(num, referenceWave, sampleWave, t1).klDiv == Detect(num, referenceWave, sampleWave, t2).klDiv
    ensures Detect(num, referenceWave, sampleWave, t1).klDiv == t1 ==>
            !Detect(num, referenceWave, sampleWave, t1).anomalyDetected
  {
  }

  /** A sample identical to the reference is normal for every non-negative
      threshold, provided the divergence of a histogram from itself is 0. */
  lemma SelfIsNormal(num: Numerics, wave: seq<real>, klThreshold: real)
    requires klThreshold >= 0.0
    requires var h := ComputeHistogram(num, wave, DefaultBins).hist; num.entropy(h, h) == 0.0
    ensures !Detect(num, wave, wave, klThreshold).anomalyDetected
  {
  }

  /** Swapping the arguments is not harmless: for a divergence that scores
      (p, q) and (q, p) differently the verdicts can differ. */
  lemma ArgumentOrderMatters(num: Numerics, referenceWave: seq<real>, sampleWave: seq<real>, klThreshold: real)
    requires var r := ComputeHistogram(num, referenceWave, DefaultBins).hist;
             var s := ComputeHistogram(num, sampleWave, DefaultBins).hist;
             num.entropy(r, s) > klThreshold >= num.entropy(s, r)
    ensures Detect(num, referenceWave, sampleWave, klThreshold).anomalyDetected
    ensures !Detect(num, sampleWave, referenceWave, klThreshold).anomalyDetected
  {
  }

  /** Why `detect_anomaly` fails. */
  datatype DetectError = ReferenceNotSet

  /** The module-level `reference_wave_global` of the detector scripts, its
      setter and the detection that reads it. */
  class ReferenceDetector {
    var referenceWaveGlobal: Option<seq<real>>

    /** `reference_wave_global = None` at import time. */
    constructor ()
      ensures referenceWaveGlobal == None
    {
      referenceWaveGlobal := None;
    }

    /** `set_reference_wave`: the global is replaced by its argument. */
    method SetReferenceWave(referenceWave: seq<real>)
      modifies this
      ensures referenceWaveGlobal == Some(referenceWave)
    {
      referenceWaveGlobal := Some(referenceWave);
    }

    /** `detect_anomaly`: a `ValueError` while no reference is set, otherwise
      the detection against the current reference. It only reads the
      reference (it has no modifies clause). */
    method DetectAnomaly(num: Numerics, sampleWave: seq<real>, klThreshold: real)
      returns (r: Result<Detection, DetectError>)
      ensures r.Failure? <==> referenceWaveGlobal.None?
      ensures r.Failure? ==> r.error == ReferenceNotSet
      ensures referenceWaveGlobal.Some? ==>
        r == Success(Detect(num, referenceWaveGlobal.value, sampleWave, klThreshold))
    {
      if referenceWaveGlobal.None? {
        return Failure(ReferenceNotSet);
      }
      var d := Detect(num, referenceWaveGlobal.value, sampleWave, klThreshold);
      r := Success(d);
    }
  }

  /** Detecting twice with the same sample, reference and threshold gives the
      same result, and the reference is still the one that was set. */
  method DetectTwice(num: Numerics, referenceWave: seq<real>, sampleWave: seq<real>)
    returns (first: Result<Detection, DetectError>, second: Result<Detection, DetectError>)
    ensures first == second
    ensures first == Success(Detect(num, referenceWave, sampleWave, DefaultKlThreshold))
  {
    var detector := new ReferenceDetector();
    detector.SetReferenceWave(referenceWave);
    first := detector.DetectAnomaly(num, sampleWave, DefaultKlThreshold);
    second := detector.DetectAnomaly(num, sampleWave, DefaultKlThreshold);
  }

  /** Calling `detect_anomaly` before `set_reference_wave` raises. */
  method DetectBeforeSet(num: Numerics, sampleWave: seq<real>) returns (r: Result<Detection, DetectError>)
    ensures r == Failure(ReferenceNotSet)
  {
    var detector := new ReferenceDetector();
    r := detector.DetectAnomaly(num, sampleWave, DefaultKlThreshold);
  }
}
