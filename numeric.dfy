/** Python and numpy numeric conventions, stated over exact reals:
    `int(x)`, `x % 1.0`, `math.ceil`, slicing `s[k:]`, `np.arange`, `np.linspace`. */
module Numeric {

  /** Python's `int(x)` on a float: truncation toward zero. */
  function Trunc(x: real): (r: int)
    ensures x >= 0.0 ==> r as real <= x < r as real + 1.0 && r >= 0
    ensures x < 0.0 ==> r as real - 1.0 < x <= r as real && r <= 0
  {
    if x >= 0.0 then x.Floor else -((-x).Floor)
  }

  /** Python's `x % 1.0`: the remainder takes the sign of the divisor, so it is
      the fractional part `x - floor(x)`. */
  function FracPart(x: real): (r: real)
    ensures 0.0 <= r < 1.0
    ensures (x - r).Floor as real == x - r
  {
    x - x.Floor as real
  }

  /** `math.ceil`, used by numpy to size `np.arange`. */
  function Ceil(x: real): (r: int)
    ensures x <= r as real < x + 1.0
  {
    -((-x).Floor)
  }

  /** Python's `s[k:]`: a negative start counts from the end, a start past the
      end yields the empty slice. */
  function SliceFrom<T>(s: seq<T>, k: int): (r: seq<T>)
    ensures |r| <= |s| && r == s[|s| - |r|..]
    ensures 0 <= k <= |s| ==> r == s[k..]
    ensures k >= |s| ==> r == []
    ensures k < 0 ==> |r| == if -k <= |s| then -k else |s|
  {
    if k >= |s| then []
    else if k >= 0 then s[k..]
    else if -k <= |s| then s[|s| + k..]
    else s
  }

  /** Number of points of `np.arange(0, stop, step)`: `ceil(stop / step)`,
      or none when that is not positive. */
  function ArangeCount(stop: real, step: real): (n: nat)
    requires step != 0.0
  {
    if stop / step <= 0.0 then 0 else Ceil(stop / step)
  }

  /** `np.arange(0, stop, step)`: the points `i * step` below `stop`. */
  function Arange(stop: real, step: real): (t: seq<real>)
    requires step != 0.0
    ensures |t| == ArangeCount(stop, step)
    ensures forall i :: 0 <= i < |t| ==> t[i] == i as real * step
  {
    seq(ArangeCount(stop, step), i => i as real * step)
  }

  /** Every point of `Arange` lies in `[0, stop)`, and the grid stops only
      when the next point would reach `stop`. */
  lemma ArangeCovers(stop: real, step: real)
    requires step > 0.0
    ensures forall i :: 0 <= i < |Arange(stop, step)| ==> 0.0 <= Arange(stop, step)[i] < stop
    ensures stop > 0.0 ==> |Arange(stop, step)| as real * step >= stop
  {
    var t := Arange(stop, step);
    var n := |t|;
    if stop > 0.0 {
      var q := stop / step;
      assert q * step == stop;
      assert n as real >= q;
      assert n as real * step >= q * step;
      forall i | 0 <= i < n ensures 0.0 <= t[i] < stop {
        assert (i as real) < q;
        assert i as real * step < q * step;
      }
    }
  }

  /** `np.linspace(start, stop, num)`: `num` evenly spaced points, both ends included. */
  function Linspace(start: real, stop: real, num: nat): (t: seq<real>)
    ensures |t| == num
  {
    if num == 1 then [start]
    else seq(num, i => start + i as real * ((stop - start) / (num - 1) as real))
  }

  /** The grid of `Linspace` starts at `start`, ends at `stop` and is uniform. */
  lemma LinspaceShape(start: real, stop: real, num: nat)
    requires num >= 2
    ensures Linspace(start, stop, num)[0] == start
    ensures Linspace(start, stop, num)[num - 1] == stop
    ensures forall i :: 0 <= i < num - 1 ==>
              Linspace(start, stop, num)[i + 1] - Linspace(start, stop, num)[i]
              == (stop - start) / (num - 1) as real
  {
    var h := (stop - start) / (num - 1) as real;
    assert h * (num - 1) as real == stop - start;
  }

  /** Adding a whole number of periods leaves the fractional part unchanged. */
  lemma FracPartShift(x: real, k: int)
    ensures FracPart(x + k as real) == FracPart(x)
  {
    assert (x + k as real).Floor == x.Floor + k;
  }

  /** Equal arguments have equal fractional parts, whatever terms denote them. */
  lemma FracPartCongruent(x: real, y: real)
    requires x == y
    ensures FracPart(x) == FracPart(y)
  {
  }

  /** The fractional part of the ratio `i / m` is the remainder `i % m` over `m`. */
  lemma FracOfRatio(i: int, m: int)
    requires m > 0
    ensures FracPart(i as real / m as real) == (i % m) as real / m as real
  {
    var q, r := i / m, i % m;
    assert i == q * m + r;
    var f := r as real / m as real;
    assert f * m as real == r as real;
    assert 0.0 <= f < 1.0 by {
      if f < 0.0 {
        MulNonNegative(-f, m as real);
      }
      if f >= 1.0 {
        MulNonNegative(f - 1.0, m as real);
      }
    }
    assert i as real / m as real == q as real + f;
    assert (q as real + f).Floor == q;
  }

  /** A product of non-negative reals is non-negative. */
  lemma MulNonNegative(x: real, y: real)
    requires x >= 0.0 && y >= 0.0
    ensures x * y >= 0.0
  {
  }

  /** A product of positive reals is positive. */
  lemma MulPositive(x: real, y: real)
    ensures x > 0.0 && y > 0.0 ==> x * y > 0.0
  {
  }

  /** A positive quotient `b / a` with `0 < b < a` lies strictly between 0 and 1. */
  lemma QuotientBelowOne(a: real, b: real)
    ensures a > b > 0.0 ==> 0.0 < b / a < 1.0
  {
    if a > b > 0.0 {
      var x := b / a;
      assert x * a == b;
      if x >= 1.0 {
        MulNonNegative(x - 1.0, a);
      }
      if x <= 0.0 {
        MulNonNegative(-x, a);
      }
    }
  }
}
