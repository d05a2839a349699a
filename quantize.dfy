/**
 * The time arithmetic of `Animation._parse` (vedo/applications.py): Python's
 * `int()` on floats, quantisation to the time resolution, `np.linspace` and
 * linear interpolation between two values.
 *
 * Times and values are exact reals here; floating-point rounding is not modelled.
 */
module Quantize {

  /** Python's `int(x)` for a float: rounds toward zero. */
  function Trunc(x: real): (n: int)
    ensures 0.0 <= x ==> n as real <= x < n as real + 1.0
    ensures x < 0.0 ==> n as real - 1.0 < x <= n as real
  {
    if x >= 0.0 then x.Floor else -((-x).Floor)
  }

  /** `int(x / res + 0.5)`: the number of resolution steps nearest to `x`, halves rounded up for x >= 0. */
  function Steps(x: real, res: real): (n: int)
    requires res != 0.0
    ensures 0.0 <= x / res ==> n as real - 0.5 <= x / res < n as real + 0.5
  {
    Trunc(x / res + 0.5)
  }

  /** `np.linspace(a, b, num)`: `num` evenly spaced values from `a` to `b` inclusive. */
  function Linspace(a: real, b: real, num: nat): (r: seq<real>)
    ensures |r| == num
    ensures num >= 1 ==> r[0] == a
    ensures num >= 2 ==> r[num - 1] == b
  {
    if num == 0 then []
    else if num == 1 then [a]
    else
      var step := (b - a) / (num - 1) as real;
      var r := seq(num, k requires 0 <= k < num => a + k as real * step);
      assert r[num - 1] == a + (num - 1) as real * step == b;
      r
  }

  /** The samples of a quantised interval of `n` steps are the multiples of the resolution after `t`. */
  lemma SamplesAreSteps(t: real, n: nat, res: real, k: nat)
    requires k <= n
    ensures Linspace(t, t + n as real * res, n + 1)[k] == t + k as real * res
  {
    if n >= 1 {
      var step := (t + n as real * res - t) / n as real;
      assert t + n as real * res - t == n as real * res;
      Cancel(n as real, res);
      assert step == res;
    }
  }

  lemma Cancel(m: real, x: real)
    requires m != 0.0
    ensures (m * x) / m == x
  {
  }

  lemma MulLeft(a: real, b: real, c: real)
    requires a <= b && 0.0 <= c
    ensures a * c <= b * c
  {
  }

  /**
   * `lin_interpolate(x, [x0, x1], [y0, y1])` from vedo.utils for scalars: the
   * value at `x` of the line through (x0, y0) and (x1, y1). On an empty
   * interval it gives `y0`.
   */
  function Lerp(x: real, x0: real, x1: real, y0: real, y1: real): (r: real)
    ensures x0 != x1 && x == x0 ==> r == y0
    ensures x0 != x1 && x == x1 ==> r == y1
  {
    if x1 - x0 == 0.0 then y0
    else y0 + (x - x0) / (x1 - x0) * (y1 - y0)
  }

  /** Interpolating at the `k`-th of `n` equal steps gives the fraction `k/n` of the way. */
  lemma LerpAtStep(t: real, n: nat, res: real, k: nat, y0: real, y1: real)
    requires n >= 1 && res != 0.0 && k <= n
    ensures Lerp(t + k as real * res, t, t + n as real * res, y0, y1)
         == y0 + (k as real / n as real) * (y1 - y0)
  {
    var span := t + n as real * res - t;
    assert span == n as real * res;
    assert span != 0.0;
    var s := (t + k as real * res - t) / span;
    assert s == (k as real * res) / (n as real * res);
    assert s == k as real / n as real;
  }

  /** Between its end points, interpolation follows the direction of its end values. */
  lemma LerpMonotone(x: real, x': real, x0: real, x1: real, y0: real, y1: real)
    requires x0 < x1 && x0 <= x <= x' <= x1 && y0 <= y1
    ensures y0 <= Lerp(x, x0, x1, y0, y1) <= Lerp(x', x0, x1, y0, y1) <= y1
  {
    var w := x1 - x0;
    var s := (x - x0) / w;
    var s' := (x' - x0) / w;
    var dy := y1 - y0;
    assert 0.0 <= s <= s' <= 1.0 by {
      Fractions(x - x0, x' - x0, w);
    }
    var lo := Lerp(x, x0, x1, y0, y1);
    var hi := Lerp(x', x0, x1, y0, y1);
    assert lo == y0 + s * dy;
    assert hi == y0 + s' * dy;
    Between(y0, dy, s * dy, s' * dy, s, s');
  }

  lemma Between(y0: real, dy: real, a: real, b: real, s: real, s': real)
    requires 0.0 <= s <= s' <= 1.0 && 0.0 <= dy && a == s * dy && b == s' * dy
    ensures y0 <= y0 + a <= y0 + b <= y0 + dy
  {
    MulLeft(0.0, s, dy);
    MulLeft(s, s', dy);
    MulLeft(s', 1.0, dy);
  }

  lemma Fractions(a: real, b: real, w: real)
    requires 0.0 <= a <= b <= w && 0.0 < w
    ensures 0.0 <= a / w <= b / w <= 1.0
  {
    assert b / w <= w / w;
  }
}
