/** Reductions over a window of samples shared by both simulators:
    `np.mean`, `np.max`, `np.min`, the peak-to-peak ripple and the ripple factor. */
module Stats {

  /** The sum of a window's samples. */
  function Sum(s: seq<real>): real
  {
    if s == [] then 0.0 else s[0] + Sum(s[1..])
  }

  /** `np.mean` of a non-empty window. */
  function Mean(s: seq<real>): real
    requires |s| > 0
  {
    Sum(s) / |s| as real
  }

  /** `np.max`: an element of the window that no element exceeds. */
  function Max(s: seq<real>): (r: real)
    requires |s| > 0
    ensures r in s
    ensures forall i :: 0 <= i < |s| ==> s[i] <= r
  {
    if |s| == 1 then s[0]
    else
      var rest := Max(s[1..]);
      assert forall i :: 1 <= i < |s| ==> s[i] == s[1..][i - 1];
      if s[0] >= rest then s[0] else rest
  }

  /** `np.min`: an element of the window that no element is below. */
  function Min(s: seq<real>): (r: real)
    requires |s| > 0
    ensures r in s
    ensures forall i :: 0 <= i < |s| ==> r <= s[i]
  {
    if |s| == 1 then s[0]
    else
      var rest := Min(s[1..]);
      assert forall i :: 1 <= i < |s| ==> s[i] == s[1..][i - 1];
      if s[0] <= rest then s[0] else rest
  }

  /** Peak-to-peak ripple `max - min`: the largest distance between two
      samples of the window, so never negative, a bound on every such
      distance, and attained by some pair. */
  function PeakToPeak(s: seq<real>): (r: real)
    requires |s| > 0
    ensures r >= 0.0
    ensures forall i, j :: 0 <= i < |s| && 0 <= j < |s| ==> s[i] - s[j] <= r
    ensures exists i, j :: 0 <= i < |s| && 0 <= j < |s| && s[i] - s[j] == r
  {
    Max(s) - Min(s)
  }

  /** `r` is the spread of the window: no two samples are further apart than
      `r`, and some two are exactly `r` apart. */
  predicate IsSpread(s: seq<real>, r: real)
  {
    && (forall i, j :: 0 <= i < |s| && 0 <= j < |s| ==> s[i] - s[j] <= r)
    && (exists i, j :: 0 <= i < |s| && 0 <= j < |s| && s[i] - s[j] == r)
  }

  /** The peak-to-peak ripple is the spread of its window. */
  lemma PeakToPeakIsSpread(s: seq<real>)
    requires |s| > 0
    ensures IsSpread(s, PeakToPeak(s))
  {
  }

  /** A window has one spread only, so `IsSpread` pins the ripple. */
  lemma SpreadUnique(s: seq<real>, a: real, b: real)
    requires IsSpread(s, a) && IsSpread(s, b)
    ensures a == b
  {
    var i, j :| 0 <= i < |s| && 0 <= j < |s| && s[i] - s[j] == a;
    var k, l :| 0 <= k < |s| && 0 <= l < |s| && s[k] - s[l] == b;
    assert s[i] - s[j] <= b && s[k] - s[l] <= a;
  }

  /** Ripple divided by the mean, guarded so that a zero mean gives exactly 0. */
  function RippleFactor(ripple: real, mean: real): (r: real)
    ensures mean == 0.0 ==> r == 0.0
    ensures mean != 0.0 ==> r * mean == ripple
    ensures ripple >= 0.0 && mean > 0.0 ==> r >= 0.0
  {
    if mean != 0.0 then ripple / mean else 0.0
  }

  /** A window whose samples all lie in `[lo, hi]` has its sum in `[n*lo, n*hi]`. */
  lemma {:induction false} SumBounds(s: seq<real>, lo: real, hi: real)
    requires forall i :: 0 <= i < |s| ==> lo <= s[i] <= hi
    ensures |s| as real * lo <= Sum(s) <= |s| as real * hi
  {
    if s != [] {
      assert forall i :: 0 <= i < |s[1..]| ==> s[1..][i] == s[i + 1];
      SumBounds(s[1..], lo, hi);
      assert (|s| - 1) as real * lo + lo == |s| as real * lo;
      assert (|s| - 1) as real * hi + hi == |s| as real * hi;
    }
  }

  /** The mean of a window whose samples lie in `[lo, hi]` lies in `[lo, hi]`. */
  lemma MeanWithin(s: seq<real>, lo: real, hi: real)
    requires |s| > 0
    requires forall i :: 0 <= i < |s| ==> lo <= s[i] <= hi
    ensures lo <= Mean(s) <= hi
  {
    SumBounds(s, lo, hi);
    var n := |s| as real;
    assert Mean(s) * n == Sum(s);
  }

  /** The mean lies between the minimum and the maximum of the window. */
  lemma MeanBetweenMinAndMax(s: seq<real>)
    requires |s| > 0
    ensures Min(s) <= Mean(s) <= Max(s)
  {
    MeanWithin(s, Min(s), Max(s));
  }

  /** The ripple is zero exactly when every sample of the window is the same. */
  lemma RippleZeroIffConstant(s: seq<real>)
    requires |s| > 0
    ensures PeakToPeak(s) == 0.0 <==> forall i :: 0 <= i < |s| ==> s[i] == s[0]
  {
    if forall i :: 0 <= i < |s| ==> s[i] == s[0] {
      var hi :| hi in s && hi == Max(s);
      var lo :| lo in s && lo == Min(s);
      assert hi == s[0] && lo == s[0];
    }
  }

  /** The peak-to-peak spread of a suffix never exceeds that of the whole trace. */
  lemma SuffixPeakToPeak(s: seq<real>, k: nat)
    requires k < |s|
    ensures PeakToPeak(s[k..]) <= PeakToPeak(s)
  {
    var tail := s[k..];
    var hi :| hi in tail && hi == Max(tail);
    var lo :| lo in tail && lo == Min(tail);
    assert hi in s && lo in s;
  }

  /** A constant window has that constant as its mean. */
  lemma MeanOfConstant(s: seq<real>, c: real)
    requires |s| > 0
    requires forall i :: 0 <= i < |s| ==> s[i] == c
    ensures Mean(s) == c
  {
    MeanWithin(s, c, c);
  }
}
