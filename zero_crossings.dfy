/** Zero crossings of a sampled signal and trimming a chunk to them
    (`find_zero_crossings`, `trim_to_zero_crossings`). */
module ZeroCrossings {

  /** numpy's `sign`: -1, 0 or 1. */
  function Sign(x: real): (r: int)
    ensures -1 <= r <= 1
    ensures r == 0 <==> x == 0.0
    ensures r == 1 <==> x > 0.0
  {
    if x > 0.0 then 1 else if x < 0.0 then -1 else 0
  }

  /** `np.diff(np.sign(s))` is non-zero at index i. Touching zero counts,
      because the sign of 0.0 is 0. */
  predicate IsCrossing(s: seq<real>, i: int)
  {
    0 <= i < |s| - 1 && Sign(s[i]) != Sign(s[i + 1])
  }

  predicate StrictlyIncreasing(xs: seq<nat>)
  {
    forall a, b :: 0 <= a < b < |xs| ==> xs[a] < xs[b]
  }

  /** The crossing indices that are at least `from`, in increasing order. */
  function CrossingsFrom(s: seq<real>, from: nat): (r: seq<nat>)
    decreases |s| - from
    ensures StrictlyIncreasing(r)
    ensures forall k :: 0 <= k < |r| ==> from <= r[k] && IsCrossing(s, r[k])
    ensures forall i: nat :: from <= i && IsCrossing(s, i) ==> i in r
  {
    if from + 1 >= |s| then []
    else if IsCrossing(s, from) then [from] + CrossingsFrom(s, from + 1)
    else CrossingsFrom(s, from + 1)
  }

  /** `np.where(np.diff(np.sign(signal)))[0]`: exactly the indices i < |s| - 1
      where consecutive signs differ, strictly increasing. */
  function FindZeroCrossings(s: seq<real>): (r: seq<nat>)
    ensures StrictlyIncreasing(r)
    ensures forall i: nat :: i in r <==> IsCrossing(s, i)
  {
    CrossingsFrom(s, 0)
  }

  /** `signal[zc[0]:zc[-1]]` when there are two or more crossings, else the
      signal itself. */
  function TrimToZeroCrossings(s: seq<real>): (r: seq<real>)
    ensures |FindZeroCrossings(s)| < 2 ==> r == s
    ensures |r| <= |s|
  {
    var zc := FindZeroCrossings(s);
    if |zc| >= 2 then s[zc[0]..zc[|zc| - 1]] else s
  }

  /** With two or more crossings the trimmed chunk is the contiguous slice
      that starts at the first crossing index and stops just before the last
      one: the sample at the last crossing is excluded, and the slice is never
      empty. No crossing lies before its start or after its end. */
  lemma TrimmedSpan(s: seq<real>)
    requires |FindZeroCrossings(s)| >= 2
    ensures var zc := FindZeroCrossings(s);
            var first, last := zc[0], zc[|zc| - 1];
            && first < last < |s| - 1
            && IsCrossing(s, first) && IsCrossing(s, last)
            && TrimToZeroCrossings(s) == s[first..last]
            && |TrimToZeroCrossings(s)| == last - first >= 1
            && (forall k :: 0 <= k < last - first ==> TrimToZeroCrossings(s)[k] == s[first + k])
            && (forall i: nat :: i < first ==> !IsCrossing(s, i))
            && (forall i: nat :: last < i ==> !IsCrossing(s, i))
  {
    var zc := FindZeroCrossings(s);
    var first, last := zc[0], zc[|zc| - 1];
    assert zc[0] < zc[|zc| - 1];
    assert first in zc && last in zc;
    forall i: nat | IsCrossing(s, i)
      ensures first <= i <= last
    {
      assert i in zc;
      var k :| 0 <= k < |zc| && zc[k] == i;
      assert zc[0] <= zc[k] <= zc[|zc| - 1];
    }
  }
}
