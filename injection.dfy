/** The synthetic anomaly-injection loop of `generate_single_sample`
    (and of the module-level loop of gen_dataset.py). The sine itself is an
    input; each `np.random.rand() < anomaly_probability` draw is one entry
    of `draws`. */
module Injection {

  /** The table `generate_single_sample` returns: one row per sample. */
  datatype Sample = Sample(time: seq<real>, normalWave: seq<real>, anomalyWave: seq<real>, isAnomaly: seq<int>)

  const DefaultAnomalyDuration: nat := 100
  const DefaultAnomalyDrop: real := 0.2

  function Min(a: int, b: int): (m: int)
  {
    if a <= b then a else b
  }

  /** After a segment starts at s no new segment can start at s + 1 .. s + Guard:
      the flag stays set over the labelled samples and is cleared at the first
      unlabelled one, which is then itself passed over. */
  function Guard(duration: nat): (g: nat)
    ensures g >= 1 && g >= duration
  {
    if duration == 0 then 1 else duration
  }

  /** Sample j lies in the segment [s, min(s + duration, n)). */
  predicate InSegment(s: nat, duration: nat, n: nat, j: int)
  {
    s <= j < Min(s + duration, n)
  }

  predicate Covered(starts: seq<nat>, duration: nat, n: nat, j: int)
  {
    exists k :: 0 <= k < |starts| && InSegment(starts[k], duration, n, j)
  }

  /** `in_anomaly` is set when index i is reached. */
  predicate Blocked(starts: seq<nat>, duration: nat, i: int)
  {
    exists k :: 0 <= k < |starts| && starts[k] < i <= starts[k] + Guard(duration)
  }

  /** `starts` are the segment starts among the first `upto` indices: in
      increasing order and separated by more than the guard, each at a fired
      draw, and an index is a start exactly when its draw fires while no
      segment is in progress. */
  ghost predicate StartsOf(starts: seq<nat>, draws: seq<bool>, duration: nat, upto: nat)
    requires upto <= |draws|
  {
    && (forall k :: 0 <= k < |starts| ==> starts[k] < upto && draws[starts[k]])
    && (forall a, b :: 0 <= a < b < |starts| ==> starts[a] + Guard(duration) < starts[b])
    && (forall i: nat :: i < upto ==> (i in starts <==> draws[i] && !Blocked(starts, duration, i)))
  }

  /** The injection loop. Besides the table it returns the indices at which a
      segment was started, which is where submit.py and upload_sample_test.py
      print "Anomaly detected at index". */
  method GenerateSingleSample(time: seq<real>, normalWave: seq<real>, draws: seq<bool>,
                              anomalyDuration: nat, anomalyDrop: real)
    returns (sample: Sample, starts: seq<nat>)
    requires |normalWave| == |time| == |draws|
    ensures sample.time == time && sample.normalWave == normalWave
    ensures |sample.anomalyWave| == |sample.isAnomaly| == |time|
    ensures StartsOf(starts, draws, anomalyDuration, |time|)
    ensures forall j :: 0 <= j < |time| ==>
      sample.isAnomaly[j] == (if Covered(starts, anomalyDuration, |time|, j) then 1 else 0)
    ensures forall j :: 0 <= j < |time| ==>
      sample.anomalyWave[j] == (if sample.isAnomaly[j] == 1 then normalWave[j] * anomalyDrop else normalWave[j])
  {
    var n := |time|;
    var anomalyWave := new real[n](j requires 0 <= j < n => normalWave[j]);
    var labels := new int[n](j => 0);
    var inAnomaly := false;
    starts := [];
    for i := 0 to n
      invariant LoopState(starts, inAnomaly, labels[..], anomalyWave[..], normalWave, draws,
                          anomalyDuration, anomalyDrop, i)
    {
      starts, inAnomaly := InjectStep(anomalyWave, labels, normalWave, draws, anomalyDuration, anomalyDrop,
                                      i, starts, inAnomaly);
    }
    sample := Sample(time, normalWave, anomalyWave[..], labels[..]);
  }

  /** One iteration of the injection loop, at index i. */
  method InjectStep(anomalyWave: array<real>, labels: array<int>, normalWave: seq<real>, draws: seq<bool>,
                    duration: nat, drop: real, i: nat, starts: seq<nat>, inAnomaly: bool)
    returns (starts': seq<nat>, inAnomaly': bool)
    requires i < |normalWave|
    requires LoopState(starts, inAnomaly, labels[..], anomalyWave[..], normalWave, draws, duration, drop, i)
    modifies anomalyWave, labels
    ensures LoopState(starts', inAnomaly', labels[..], anomalyWave[..], normalWave, draws, duration, drop, i + 1)
  {
    if draws[i] && !inAnomaly {
      starts' := StartSegment(anomalyWave, labels, normalWave, draws, duration, drop, i, starts);
      inAnomaly' := true;
    } else if labels[i] == 0 {
      assert labels[..][i] == 0;
      StepClear(starts, inAnomaly, labels[..], anomalyWave[..], normalWave, draws, duration, drop, i);
      starts', inAnomaly' := starts, false;
    } else {
      assert labels[..][i] != 0;
      StepKeep(starts, inAnomaly, labels[..], anomalyWave[..], normalWave, draws, duration, drop, i);
      starts', inAnomaly' := starts, inAnomaly;
    }
  }

  /** A draw fires while no segment is in progress: a segment starts at i. */
  method StartSegment(anomalyWave: array<real>, labels: array<int>, normalWave: seq<real>, draws: seq<bool>,
                      duration: nat, drop: real, i: nat, starts: seq<nat>)
    returns (starts': seq<nat>)
    requires i < |normalWave|
    requires LoopState(starts, false, labels[..], anomalyWave[..], normalWave, draws, duration, drop, i)
    requires draws[i]
    modifies anomalyWave, labels
    ensures starts' == starts + [i]
    ensures LoopState(starts', true, labels[..], anomalyWave[..], normalWave, draws, duration, drop, i + 1)
  {
    ghost var labels0, wave0 := labels[..], anomalyWave[..];
    var endIndex := Min(i + duration, |normalWave|);
    MarkSegment(anomalyWave, labels, i, endIndex, drop);
    StepStart(starts, labels0, wave0, labels[..], anomalyWave[..], normalWave, draws, duration, drop, i);
    starts' := starts + [i];
  }

  /** `labels[i:end_index] = 1` on a snapshot. */
  function Painted(labels: seq<int>, i: nat, endIndex: nat): (r: seq<int>)
    ensures |r| == |labels|
    ensures forall j :: 0 <= j < |r| ==> r[j] == (if i <= j < endIndex then 1 else labels[j])
  {
    seq(|labels|, j requires 0 <= j < |labels| => if i <= j < endIndex then 1 else labels[j])
  }

  /** `anomaly_wave[i:end_index] *= anomaly_drop` on a snapshot. */
  function Scaled(wave: seq<real>, i: nat, endIndex: nat, drop: real): (r: seq<real>)
    ensures |r| == |wave|
    ensures forall j :: 0 <= j < |r| ==> r[j] == (if i <= j < endIndex then wave[j] * drop else wave[j])
  {
    seq(|wave|, j requires 0 <= j < |wave| => if i <= j < endIndex then wave[j] * drop else wave[j])
  }

  /** The two slice assignments of a new segment. */
  method MarkSegment(anomalyWave: array<real>, labels: array<int>, i: nat, endIndex: nat, drop: real)
    modifies anomalyWave, labels
    ensures labels[..] == Painted(old(labels[..]), i, endIndex)
    ensures anomalyWave[..] == Scaled(old(anomalyWave[..]), i, endIndex, drop)
  {
    ghost var wave0 := anomalyWave[..];
    forall j | i <= j < endIndex && j < anomalyWave.Length {
      anomalyWave[j] := anomalyWave[j] * drop;
    }
    assert forall j :: 0 <= j < anomalyWave.Length ==> anomalyWave[j] == Scaled(wave0, i, endIndex, drop)[j];
    ghost var scaled := anomalyWave[..];
    forall j | i <= j < endIndex && j < labels.Length {
      labels[j] := 1;
    }
    assert anomalyWave[..] == scaled;
  }

  /** The loop invariant of the injection loop once indices 0 .. i - 1 are done. */
  ghost predicate LoopState(starts: seq<nat>, inAnomaly: bool, labels: seq<int>, wave: seq<real>,
                            normalWave: seq<real>, draws: seq<bool>, duration: nat, drop: real, i: nat)
  {
    && i <= |draws| == |normalWave|
    && StartsOf(starts, draws, duration, i)
    && (inAnomaly <==> Blocked(starts, duration, i))
    && Marked(labels, wave, normalWave, starts, duration, drop)
  }

  /** The labels and the scaled wave that the segments at `starts` give. */
  ghost predicate Marked(labels: seq<int>, wave: seq<real>, normalWave: seq<real>,
                         starts: seq<nat>, duration: nat, drop: real)
  {
    var n := |normalWave|;
    && |labels| == |wave| == n
    && (forall j :: 0 <= j < n ==> labels[j] == (if Covered(starts, duration, n, j) then 1 else 0))
    && (forall j :: 0 <= j < n ==>
          wave[j] == (if Covered(starts, duration, n, j) then normalWave[j] * drop else normalWave[j]))
  }

  /** A draw fires while no segment is in progress: the segment
      [i, min(i + duration, n)) is scaled and labelled. */
  lemma StepStart(starts: seq<nat>, labels0: seq<int>, wave0: seq<real>, labels: seq<int>, wave: seq<real>,
                  normalWave: seq<real>, draws: seq<bool>, duration: nat, drop: real, i: nat)
    requires i < |normalWave|
    requires LoopState(starts, false, labels0, wave0, normalWave, draws, duration, drop, i)
    requires draws[i]
    requires labels == Painted(labels0, i, Min(i + duration, |normalWave|))
    requires wave == Scaled(wave0, i, Min(i + duration, |normalWave|), drop)
    ensures LoopState(starts + [i], true, labels, wave, normalWave, draws, duration, drop, i + 1)
  {
    var n := |normalWave|;
    StartAppended(starts, draws, duration, n, i);
    FreshSegment(starts, duration, n, i);
    assert Marked(labels, wave, normalWave, starts + [i], duration, drop);
  }

  /** No segment starts at an unlabelled index i, and the flag is cleared. */
  lemma StepClear(starts: seq<nat>, inAnomaly: bool, labels: seq<int>, wave: seq<real>,
                  normalWave: seq<real>, draws: seq<bool>, duration: nat, drop: real, i: nat)
    requires i < |normalWave|
    requires LoopState(starts, inAnomaly, labels, wave, normalWave, draws, duration, drop, i)
    requires !(draws[i] && !inAnomaly) && labels[i] == 0
    ensures LoopState(starts, false, labels, wave, normalWave, draws, duration, drop, i + 1)
  {
    UnlabelledClears(starts, duration, |normalWave|, i);
  }

  /** No segment starts at a labelled index i, and the flag stays set. */
  lemma StepKeep(starts: seq<nat>, inAnomaly: bool, labels: seq<int>, wave: seq<real>,
                 normalWave: seq<real>, draws: seq<bool>, duration: nat, drop: real, i: nat)
    requires i < |normalWave|
    requires LoopState(starts, inAnomaly, labels, wave, normalWave, draws, duration, drop, i)
    requires !(draws[i] && !inAnomaly) && labels[i] != 0
    ensures LoopState(starts, inAnomaly, labels, wave, normalWave, draws, duration, drop, i + 1)
  {
    LabelledKeeps(starts, duration, |normalWave|, i);
  }

  /** gen_dataset.py: the same loop with a 100-sample duration and a 0.2 drop. */
  method GenDataset(time: seq<real>, normalWave: seq<real>, draws: seq<bool>) returns (sample: Sample)
    requires |normalWave| == |time| == |draws|
    ensures sample.time == time && sample.normalWave == normalWave
    ensures |sample.anomalyWave| == |sample.isAnomaly| == |time|
    ensures exists starts :: StartsOf(starts, draws, 100, |time|) && LabelledBy(sample, starts, 100, 0.2)
  {
    var starts;
    sample, starts := GenerateSingleSample(time, normalWave, draws, DefaultAnomalyDuration, DefaultAnomalyDrop);
    assert StartsOf(starts, draws, 100, |time|) && LabelledBy(sample, starts, 100, 0.2);
  }

  /** The labels and the anomaly wave of a table are those that the segments
      at `starts` give it. */
  ghost predicate LabelledBy(sample: Sample, starts: seq<nat>, duration: nat, drop: real)
  {
    var n := |sample.normalWave|;
    && |sample.anomalyWave| == |sample.isAnomaly| == n
    && (forall j :: 0 <= j < n ==> sample.isAnomaly[j] == (if Covered(starts, duration, n, j) then 1 else 0))
    && (forall j :: 0 <= j < n ==>
          sample.anomalyWave[j] == (if sample.isAnomaly[j] == 1 then sample.normalWave[j] * drop else sample.normalWave[j]))
  }

  // ---- what the segment starts imply ----

  /** Two different segments share no sample. */
  lemma SegmentsDisjoint(starts: seq<nat>, draws: seq<bool>, duration: nat, n: nat, a: nat, b: nat, j: int)
    requires n <= |draws| && StartsOf(starts, draws, duration, n)
    requires a < |starts| && b < |starts| && a != b
    ensures !(InSegment(starts[a], duration, n, j) && InSegment(starts[b], duration, n, j))
  {
    if a < b {
      assert starts[a] + Guard(duration) < starts[b];
    } else {
      assert starts[b] + Guard(duration) < starts[a];
    }
  }

  /** With a duration of at least one sample, the sample right after a
      segment (when the series has one) is unlabelled: segments are separated
      by at least one normal sample. */
  lemma SegmentsSeparated(starts: seq<nat>, draws: seq<bool>, duration: nat, n: nat, k: nat)
    requires n <= |draws| && StartsOf(starts, draws, duration, n)
    requires duration >= 1 && k < |starts|
    ensures !Covered(starts, duration, n, starts[k] + duration)
  {
    var j := starts[k] + duration;
    forall m | 0 <= m < |starts|
      ensures !InSegment(starts[m], duration, n, j)
    {
      if m < k {
        assert starts[m] + Guard(duration) < starts[k];
      } else if m > k {
        assert starts[k] + Guard(duration) < starts[m];
      }
    }
  }

  /** Labels are 0 or 1, and a sample is labelled exactly when it lies in
      [s, min(s + duration, n)) for some segment start s. */
  lemma LabelsAreSegments(sample: Sample, starts: seq<nat>, duration: nat, drop: real, j: nat)
    requires LabelledBy(sample, starts, duration, drop) && j < |sample.normalWave|
    ensures sample.isAnomaly[j] == 0 || sample.isAnomaly[j] == 1
    ensures sample.isAnomaly[j] == 1 <==>
      exists k :: 0 <= k < |starts| && starts[k] <= j < Min(starts[k] + duration, |sample.normalWave|)
  {
  }

  /** When no draw fires there is no segment: every label is 0 and the
      anomaly wave is the normal wave, sample for sample. */
  lemma NoDrawNoAnomaly(sample: Sample, starts: seq<nat>, draws: seq<bool>, duration: nat, drop: real)
    requires |sample.normalWave| <= |draws| && StartsOf(starts, draws, duration, |sample.normalWave|)
    requires LabelledBy(sample, starts, duration, drop)
    requires forall i :: 0 <= i < |draws| ==> !draws[i]
    ensures starts == []
    ensures forall j :: 0 <= j < |sample.isAnomaly| ==> sample.isAnomaly[j] == 0
    ensures sample.anomalyWave == sample.normalWave
  {
    // Names starts[0], so the "every start is at a fired draw" quantifier of
    // StartsOf applies to it: a first start would need a fired draw.
    var first := FirstOr(starts, 0);
  }

  function FirstOr(xs: seq<nat>, default: nat): (x: nat)
  {
    if |xs| > 0 then xs[0] else default
  }

  // ---- loop steps ----

  /** No earlier segment reaches a start index that is not blocked. */
  lemma FreshSegment(starts: seq<nat>, duration: nat, n: nat, i: nat)
    requires forall k :: 0 <= k < |starts| ==> starts[k] < i
    requires !Blocked(starts, duration, i)
    ensures forall j :: i <= j ==> !Covered(starts, duration, n, j)
  {
    forall j, k | i <= j && 0 <= k < |starts|
      ensures !InSegment(starts[k], duration, n, j)
    {
      assert !(starts[k] < i <= starts[k] + Guard(duration));
    }
  }

  lemma StartAppended(starts: seq<nat>, draws: seq<bool>, duration: nat, n: nat, i: nat)
    requires i < |draws| && n <= |draws|
    requires StartsOf(starts, draws, duration, i)
    requires draws[i] && !Blocked(starts, duration, i)
    ensures StartsOf(starts + [i], draws, duration, i + 1)
    ensures Blocked(starts + [i], duration, i + 1)
    ensures forall j :: Covered(starts + [i], duration, n, j) <==>
      Covered(starts, duration, n, j) || InSegment(i, duration, n, j)
  {
    var s' := starts + [i];
    assert s'[|starts|] == i;
    forall a | 0 <= a < |starts|
      ensures starts[a] + Guard(duration) < i
    {
      assert !(starts[a] < i <= starts[a] + Guard(duration));
    }
    forall j: nat | j < i + 1
      ensures j in s' <==> draws[j] && !Blocked(s', duration, j)
    {
      BlockedAppended(starts, duration, i, j);
      assert j in s' <==> j in starts || j == i;
    }
    CoveredAppended(starts, duration, n, i);
  }

  /** A start at i blocks nothing at or before i. */
  lemma BlockedAppended(starts: seq<nat>, duration: nat, i: nat, j: nat)
    requires j <= i
    ensures Blocked(starts + [i], duration, j) <==> Blocked(starts, duration, j)
  {
    var s' := starts + [i];
    if Blocked(s', duration, j) {
      var k :| 0 <= k < |s'| && s'[k] < j <= s'[k] + Guard(duration);
      assert k < |starts| && starts[k] == s'[k];
    }
    if Blocked(starts, duration, j) {
      var k :| 0 <= k < |starts| && starts[k] < j <= starts[k] + Guard(duration);
      assert s'[k] == starts[k];
    }
  }

  /** The samples covered after a new start are the old ones and the new
      segment's. */
  lemma CoveredAppended(starts: seq<nat>, duration: nat, n: nat, i: nat)
    ensures forall j :: Covered(starts + [i], duration, n, j) <==>
      Covered(starts, duration, n, j) || InSegment(i, duration, n, j)
  {
    var s' := starts + [i];
    assert s'[|starts|] == i;
    forall j
      ensures Covered(s', duration, n, j) <==> Covered(starts, duration, n, j) || InSegment(i, duration, n, j)
    {
      if Covered(s', duration, n, j) {
        var k :| 0 <= k < |s'| && InSegment(s'[k], duration, n, j);
        if k < |starts| {
          assert s'[k] == starts[k];
        }
      }
      if Covered(starts, duration, n, j) {
        var k :| 0 <= k < |starts| && InSegment(starts[k], duration, n, j);
        assert s'[k] == starts[k];
      }
    }
  }

  /** An unlabelled sample ends any segment in progress. */
  lemma UnlabelledClears(starts: seq<nat>, duration: nat, n: nat, i: nat)
    requires i < n
    requires forall k :: 0 <= k < |starts| ==> starts[k] < i
    requires !Covered(starts, duration, n, i)
    ensures !Blocked(starts, duration, i + 1)
  {
    forall k | 0 <= k < |starts|
      ensures !(starts[k] < i + 1 <= starts[k] + Guard(duration))
    {
      assert !InSegment(starts[k], duration, n, i);
    }
  }

  /** A labelled sample lies inside a segment that started before it, so the
      flag is already set and stays set. */
  lemma LabelledKeeps(starts: seq<nat>, duration: nat, n: nat, i: nat)
    requires forall k :: 0 <= k < |starts| ==> starts[k] < i
    requires Covered(starts, duration, n, i)
    ensures Blocked(starts, duration, i) && Blocked(starts, duration, i + 1)
  {
    var k :| 0 <= k < |starts| && InSegment(starts[k], duration, n, i);
    assert starts[k] < i <= starts[k] + Guard(duration);
  }
}
