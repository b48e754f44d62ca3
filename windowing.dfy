/** Cutting a long recording into windows, trimming each to its zero
    crossings, and labelling each window from the per-sample labels
    (the `for i in range(0, len(df) - window_size, step_size)` loops of the
    calibration script). */
module Windowing {
  import opened ZeroCrossings

  /** Python's `range(start, stop, step)` for a positive step. */
  function RangeFrom(start: nat, stop: int, step: nat): (r: seq<nat>)
    requires step > 0
    decreases stop - start
    ensures |r| > 0 <==> start < stop
    ensures |r| > 0 ==> r[0] == start
    ensures forall k :: 0 <= k < |r| ==> start <= r[k] < stop
  {
    if start >= stop then [] else [start] + RangeFrom(start + step, stop, step)
  }

  /** Element k of the range is start + k * step. */
  lemma {:induction false} RangeFromAt(start: nat, stop: int, step: nat, k: nat)
    requires step > 0 && k < |RangeFrom(start, stop, step)|
    decreases k
    ensures RangeFrom(start, stop, step)[k] == start + k * step
  {
    if k > 0 {
      RangeFromAt(start + step, stop, step, k - 1);
      assert RangeFrom(start, stop, step)[k] == RangeFrom(start + step, stop, step)[k - 1];
      assert start + step + (k - 1) * step == start + k * step;
    }
  }

  /** The range stops at the first multiple of the step that reaches stop. */
  lemma {:induction false} RangeFromLength(start: nat, stop: int, step: nat)
    requires step > 0
    decreases stop - start
    ensures start + |RangeFrom(start, stop, step)| * step >= stop
  {
    if start < stop {
      RangeFromLength(start + step, stop, step);
      var c := |RangeFrom(start + step, stop, step)|;
      assert start + (c + 1) * step == start + step + c * step;
    }
  }

  /** The window start indices `range(0, n - window, step)`: every window
      lies inside the recording, and there is one iff n > window. */
  function WindowStarts(n: nat, window: nat, step: nat): (r: seq<nat>)
    requires step > 0
    ensures |r| > 0 <==> n > window
    ensures forall k :: 0 <= k < |r| ==> r[k] + window < n
  {
    RangeFrom(0, n - window, step)
  }

  /** Window k starts at k * step. */
  lemma WindowStartAt(n: nat, window: nat, step: nat, k: nat)
    requires step > 0 && k < |WindowStarts(n, window, step)|
    ensures WindowStarts(n, window, step)[k] == k * step
  {
    RangeFromAt(0, n - window, step, k);
  }

  /** a * step < b * step only when a < b. */
  lemma MulLessCancel(a: int, b: int, step: nat)
    requires step > 0 && a * step < b * step
    ensures a < b
  {
  }

  /** a <= b gives a * step <= b * step. */
  lemma MulMono(a: int, b: int, step: nat)
    requires a <= b
    ensures a * step <= b * step
  {
  }

  /** When n > window the range has c elements with
      (c - 1) * step < n - window <= c * step, i.e. c = ceil((n - window) / step),
      which is not floor((n - window) / step) + 1 when step divides n - window. */
  lemma WindowCount(n: nat, window: nat, step: nat)
    requires step > 0 && n > window
    ensures var c := |WindowStarts(n, window, step)|;
            c > 0 && (c - 1) * step < n - window <= c * step
  {
    var r := WindowStarts(n, window, step);
    var c := |r|;
    RangeFromLength(0, n - window, step);
    WindowStartAt(n, window, step, c - 1);
  }

  /** Because the range stops strictly below n - window, the full window that
      starts at n - window is never produced when n - window is a multiple of
      the step: with n = 100000 and window = step = 1000 only 99 of the 100
      full windows are scored. */
  lemma LastFullWindowDropped(n: nat, window: nat, step: nat, m: nat)
    requires step > 0 && n > window && n - window == m * step
    ensures m * step !in WindowStarts(n, window, step)
    ensures |WindowStarts(n, window, step)| == m
  {
    var c := |WindowStarts(n, window, step)|;
    WindowCount(n, window, step);
    MulLessCancel(c - 1, m, step);
    MulLessCancel(m - 1, c, step);
  }

  /** With step == window (the script uses 1000 for both) the windows tile
      the recording: window k ends where window k + 1 starts, so they never
      overlap. */
  lemma TilingWindowsDisjoint(n: nat, window: nat, k1: nat, k2: nat)
    requires window > 0 && k1 < k2 < |WindowStarts(n, window, window)|
    ensures WindowStarts(n, window, window)[k1] + window <= WindowStarts(n, window, window)[k2]
  {
    WindowStartAt(n, window, window, k1);
    WindowStartAt(n, window, window, k2);
    MulMono(k1 + 1, k2, window);
    assert (k1 + 1) * window == k1 * window + window;
  }

  /** One untrimmed window `df[col].iloc[s:s + window]`. */
  function Window<T>(xs: seq<T>, window: nat, s: nat): (w: seq<T>)
    requires s + window <= |xs|
    ensures |w| == window
    ensures forall j :: 0 <= j < window ==> w[j] == xs[s + j]
  {
    xs[s..s + window]
  }

  /** The list of trimmed chunks: chunk k is window k, trimmed. */
  function TrimmedChunksOf(wave: seq<real>, window: nat, step: nat): (cs: seq<seq<real>>)
    requires step > 0
    ensures |cs| == |WindowStarts(|wave|, window, step)|
  {
    var starts := WindowStarts(|wave|, window, step);
    seq(|starts|, k requires 0 <= k < |starts| =>
      TrimToZeroCrossings(Window(wave, window, starts[k])))
  }

  /** The `for` loop that appends the trimmed chunks, walking the `range`
      of window starts. */
  method TrimmedChunks(wave: seq<real>, window: nat, step: nat) returns (chunks: seq<seq<real>>)
    requires step > 0
    ensures chunks == TrimmedChunksOf(wave, window, step)
  {
    var starts := WindowStarts(|wave|, window, step);
    chunks := [];
    for k := 0 to |starts|
      invariant |chunks| == k
      invariant forall m :: 0 <= m < k ==> chunks[m] == TrimToZeroCrossings(Window(wave, window, starts[m]))
    {
      var chunk := Window(wave, window, starts[k]);
      chunks := chunks + [TrimToZeroCrossings(chunk)];
    }
    assert forall m :: 0 <= m < |chunks| ==> chunks[m] == TrimmedChunksOf(wave, window, step)[m];
  }

  /** `np.max` of a non-empty window of labels. */
  function Max(xs: seq<int>): (m: int)
    requires |xs| > 0
    ensures m in xs
    ensures forall j :: 0 <= j < |xs| ==> xs[j] <= m
  {
    if |xs| == 1 then xs[0]
    else
      var rest := Max(xs[1..]);
      if xs[0] >= rest then xs[0] else rest
  }

  /** The ground truth of every window: the largest label inside it. */
  function GroundTruthOf(labels: seq<int>, window: nat, step: nat): (gt: seq<int>)
    requires step > 0 && window > 0
    ensures |gt| == |WindowStarts(|labels|, window, step)|
  {
    var starts := WindowStarts(|labels|, window, step);
    seq(|starts|, k requires 0 <= k < |starts| => Max(Window(labels, window, starts[k])))
  }

  /** The `for` loop that appends `np.max` of each window of labels. */
  method GroundTruth(labels: seq<int>, window: nat, step: nat) returns (gt: seq<int>)
    requires step > 0 && window > 0
    ensures gt == GroundTruthOf(labels, window, step)
  {
    var starts := WindowStarts(|labels|, window, step);
    gt := [];
    for k := 0 to |starts|
      invariant |gt| == k
      invariant forall m :: 0 <= m < k ==> gt[m] == Max(Window(labels, window, starts[m]))
    {
      gt := gt + [Max(Window(labels, window, starts[k]))];
    }
    assert forall m :: 0 <= m < |gt| ==> gt[m] == GroundTruthOf(labels, window, step)[m];
  }

  predicate ZeroOne(xs: seq<int>)
  {
    forall j :: 0 <= j < |xs| ==> xs[j] == 0 || xs[j] == 1
  }

  /** With 0/1 labels a window's ground truth is 0 or 1, and it is 1 exactly
      when some sample inside the untrimmed window is labelled 1: a short
      anomaly is not diluted by the rest of the window. */
  lemma GroundTruthIsAnyLabel(labels: seq<int>, window: nat, step: nat, k: nat)
    requires step > 0 && window > 0 && ZeroOne(labels)
    requires k < |WindowStarts(|labels|, window, step)|
    ensures var s := WindowStarts(|labels|, window, step)[k];
            var g := GroundTruthOf(labels, window, step)[k];
            && (g == 0 || g == 1)
            && (g == 1 <==> exists j :: s <= j < s + window && labels[j] == 1)
  {
    var s := WindowStarts(|labels|, window, step)[k];
    var w := Window(labels, window, s);
    var g := Max(w);
    assert g == GroundTruthOf(labels, window, step)[k];
    var i :| 0 <= i < |w| && w[i] == g;
    assert w[i] == labels[s + i];
    if exists j :: s <= j < s + window && labels[j] == 1 {
      var j :| s <= j < s + window && labels[j] == 1;
      assert w[j - s] == 1;
    }
  }

  /** The normal chunks, the anomaly chunks and the ground truth are built
      over the same range, so for two columns of one table they have the same
      length and entry k of each comes from the samples of the window that
      starts at k * step. */
  lemma ChunksAligned(normal: seq<real>, anomaly: seq<real>, labels: seq<int>, window: nat, step: nat)
    requires step > 0 && window > 0 && |normal| == |anomaly| == |labels|
    ensures |TrimmedChunksOf(normal, window, step)| == |TrimmedChunksOf(anomaly, window, step)|
            == |GroundTruthOf(labels, window, step)| == |WindowStarts(|normal|, window, step)|
    ensures forall k :: 0 <= k < |WindowStarts(|normal|, window, step)| ==>
      && k * step + window <= |normal|
      && TrimmedChunksOf(normal, window, step)[k] == TrimToZeroCrossings(Window(normal, window, k * step))
      && TrimmedChunksOf(anomaly, window, step)[k] == TrimToZeroCrossings(Window(anomaly, window, k * step))
      && GroundTruthOf(labels, window, step)[k] == Max(Window(labels, window, k * step))
  {
    forall k | 0 <= k < |WindowStarts(|normal|, window, step)|
      ensures k * step + window <= |normal|
      ensures TrimmedChunksOf(normal, window, step)[k] == TrimToZeroCrossings(Window(normal, window, k * step))
      ensures TrimmedChunksOf(anomaly, window, step)[k] == TrimToZeroCrossings(Window(anomaly, window, k * step))
      ensures GroundTruthOf(labels, window, step)[k] == Max(Window(labels, window, k * step))
    {
      WindowStartAt(|normal|, window, step, k);
      WindowStartAt(|labels|, window, step, k);
    }
  }
}
