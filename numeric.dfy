/**
 * Arithmetic shared by both generators: decimal rounding (`Math.round`,
 * `Number.prototype.toFixed`), `randomInRange`, and the reductions used for
 * averages, minima, maxima and the population variance.
 */
module Numeric {

  /** 10^d as a real. */
  function Pow10(d: nat): (r: real)
    ensures r >= 1.0
  {
    if d == 0 then 1.0 else 10.0 * Pow10(d - 1)
  }

  /** Half of the last kept decimal place: the largest error of a rounding to d decimals. */
  function HalfUnit(d: nat): (h: real)
    ensures 0.0 < h <= 0.5
  {
    0.5 / Pow10(d)
  }

  /** The whole number of last-place units that rounding half up keeps. */
  function Units(x: real, d: nat): int {
    (x * Pow10(d) + 0.5).Floor
  }

  /** Round half up to d decimals; `Math.round(x)` is `RoundHalfUp(x, 0)`. */
  function RoundHalfUp(x: real, d: nat): real {
    (Units(x, d) as real) / Pow10(d)
  }

  /** `Number(x.toFixed(d))`: round half away from zero to d decimals. */
  function ToFixed(x: real, d: nat): real {
    if x >= 0.0 then RoundHalfUp(x, d) else -RoundHalfUp(-x, d)
  }

  function Abs(x: real): real {
    if x < 0.0 then -x else x
  }

  lemma MulMonotone(x: real, y: real, p: real)
    requires x <= y && p >= 0.0
    ensures x * p <= y * p
  {
    assert y * p - x * p == (y - x) * p;
  }

  lemma SquareNonNegative(x: real)
    ensures x * x >= 0.0
  {
    if x < 0.0 { assert x * x == (-x) * (-x); }
  }

  lemma MulUnit(u: real, w: real)
    requires 0.0 <= u <= 1.0 && w >= 0.0
    ensures 0.0 <= u * w <= w
  {
    MulMonotone(0.0, u, w);
    MulMonotone(u, 1.0, w);
  }

  lemma MulUnitStrict(u: real, w: real)
    requires 0.0 <= u < 1.0 && w > 0.0
    ensures 0.0 <= u * w < w
  {
    MulMonotone(0.0, u, w);
    assert w - u * w == (1.0 - u) * w;
  }

  lemma DivMonotone(a: real, b: real, p: real)
    requires p > 0.0 && a <= b
    ensures a / p <= b / p
  {
    assert b / p - a / p == (b - a) / p;
  }

  lemma RoundHalfUpMonotone(x: real, y: real, d: nat)
    requires x <= y
    ensures RoundHalfUp(x, d) <= RoundHalfUp(y, d)
  {
    var p := Pow10(d);
    MulMonotone(x, y, p);
    assert Units(x, d) <= Units(y, d);
    DivMonotone(Units(x, d) as real, Units(y, d) as real, p);
  }

  lemma RoundHalfUpClose(x: real, d: nat)
    ensures x - HalfUnit(d) < RoundHalfUp(x, d) <= x + HalfUnit(d)
  {
    var p := Pow10(d);
    var f := Units(x, d) as real;
    assert x * p - 0.5 < f <= x * p + 0.5;
    assert (x * p - 0.5) / p == x - HalfUnit(d);
    assert (x * p + 0.5) / p == x + HalfUnit(d);
    assert (f - (x * p - 0.5)) / p > 0.0;
    assert ((x * p + 0.5) - f) / p >= 0.0;
  }

  /** Rounding a whole number again changes nothing (`Math.round(Math.round(x))`). */
  lemma RoundWholeIdentity(n: int)
    ensures RoundHalfUp(n as real, 0) == n as real
  {
    assert Pow10(0) == 1.0;
    assert (n as real) * 1.0 + 0.5 == n as real + 0.5;
    assert Units(n as real, 0) == n;
  }

  lemma {:induction false} ToFixedMonotone(x: real, y: real, d: nat)
    requires x <= y
    ensures ToFixed(x, d) <= ToFixed(y, d)
  {
    if x >= 0.0 {
      RoundHalfUpMonotone(x, y, d);
    } else if y >= 0.0 {
      RoundHalfUpMonotone(0.0, -x, d);
      RoundHalfUpMonotone(0.0, y, d);
      assert RoundHalfUp(0.0, d) == 0.0;
    } else {
      RoundHalfUpMonotone(-y, -x, d);
    }
  }

  lemma ToFixedClose(x: real, d: nat)
    ensures Abs(ToFixed(x, d) - x) <= HalfUnit(d)
  {
    if x >= 0.0 { RoundHalfUpClose(x, d); } else { RoundHalfUpClose(-x, d); }
  }

  /** `toFixed(0)` yields a whole number, so a following `Math.round` keeps it. */
  lemma ToFixedWhole(x: real)
    ensures ToFixed(x, 0) == ToFixed(x, 0).Floor as real
    ensures RoundHalfUp(ToFixed(x, 0), 0) == ToFixed(x, 0)
  {
    assert Pow10(0) == 1.0;
    var n := if x >= 0.0 then Units(x, 0) else -Units(-x, 0);
    assert ToFixed(x, 0) == n as real;
    RoundWholeIdentity(n);
  }

  /** Rounding half up a value already on the grid of d decimals returns it. */
  lemma RoundHalfUpOnGrid(n: int, d: nat)
    ensures RoundHalfUp((n as real) / Pow10(d), d) == (n as real) / Pow10(d)
  {
    var p := Pow10(d);
    assert (n as real) / p * p == n as real;
    assert Units((n as real) / p, d) == n;
  }

  /** `Number(v.toFixed(d))` of a value that came out of `toFixed(d)` changes nothing. */
  lemma ToFixedIdempotent(x: real, d: nat)
    ensures ToFixed(ToFixed(x, d), d) == ToFixed(x, d)
  {
    var p := Pow10(d);
    if x >= 0.0 {
      var n := Units(x, d);
      assert n >= 0;
      RoundHalfUpOnGrid(n, d);
      assert ToFixed(x, d) == (n as real) / p >= 0.0;
    } else {
      var n := Units(-x, d);
      RoundHalfUpOnGrid(n, d);
      if n == 0 {
        assert ToFixed(x, d) == 0.0;
        RoundHalfUpOnGrid(0, d);
      } else {
        assert n > 0;
        assert ToFixed(x, d) == -((n as real) / p) < 0.0;
      }
    }
  }

  /** A value of at least one half never rounds to zero or below. */
  lemma RoundPositive(x: real, d: nat)
    requires x >= 0.5
    ensures ToFixed(x, d) > 0.0 && RoundHalfUp(x, d) > 0.0
  {
    var p := Pow10(d);
    MulMonotone(0.5, x, p);
    assert Units(x, d) >= 1;
    DivMonotone(0.0, Units(x, d) as real, p);
    assert RoundHalfUp(x, d) >= 1.0 / p > 0.0;
  }

  /** `randomInRange(lo, hi, d)` with the draw `u` of `Math.random()`. */
  function RandomInRange(lo: real, hi: real, d: nat, u: real): real {
    ToFixed(u * (hi - lo) + lo, d)
  }

  ghost predicate IsDraw(u: real) {
    0.0 <= u < 1.0
  }

  lemma {:induction false} RandomInRangeBounds(lo: real, hi: real, d: nat, u: real)
    requires lo <= hi && IsDraw(u)
    ensures lo - HalfUnit(d) <= RandomInRange(lo, hi, d, u) <= hi + HalfUnit(d)
  {
    var w := hi - lo;
    MulUnit(u, w);
    var x := u * w + lo;
    assert x == u * (hi - lo) + lo;
    ToFixedClose(x, d);
    assert lo <= x <= hi;
    assert x - HalfUnit(d) <= ToFixed(x, d) <= x + HalfUnit(d);
  }

  /** `Math.floor(u * n)`: the index a draw selects among n items. */
  function DrawIndex(u: real, n: nat): (i: int)
    requires IsDraw(u) && n > 0
    ensures 0 <= i < n
  {
    MulUnitStrict(u, n as real);
    (u * (n as real)).Floor
  }

  /** `values.reduce((a, b) => a + b, 0)`, a left fold. */
  function Sum(s: seq<real>): real {
    if s == [] then 0.0 else Sum(s[..|s| - 1]) + s[|s| - 1]
  }

  function Mean(s: seq<real>): real
    requires |s| > 0
  {
    Sum(s) / (|s| as real)
  }

  /** `Math.min(...values)`. */
  function SeqMin(s: seq<real>): (m: real)
    requires |s| > 0
    ensures m in s && forall i :: 0 <= i < |s| ==> m <= s[i]
  {
    if |s| == 1 then s[0]
    else
      var m := SeqMin(s[..|s| - 1]);
      assert forall i :: 0 <= i < |s| - 1 ==> s[..|s| - 1][i] == s[i];
      if s[|s| - 1] < m then s[|s| - 1] else m
  }

  /** `Math.max(...values)`. */
  function SeqMax(s: seq<real>): (m: real)
    requires |s| > 0
    ensures m in s && forall i :: 0 <= i < |s| ==> s[i] <= m
  {
    if |s| == 1 then s[0]
    else
      var m := SeqMax(s[..|s| - 1]);
      assert forall i :: 0 <= i < |s| - 1 ==> s[..|s| - 1][i] == s[i];
      if s[|s| - 1] > m then s[|s| - 1] else m
  }

  lemma {:induction false} SumBounds(s: seq<real>, lo: real, hi: real)
    requires forall i :: 0 <= i < |s| ==> lo <= s[i] <= hi
    ensures (|s| as real) * lo <= Sum(s) <= (|s| as real) * hi
  {
    if s != [] {
      var p := s[..|s| - 1];
      assert forall i :: 0 <= i < |p| ==> p[i] == s[i];
      SumBounds(p, lo, hi);
      assert (|s| as real) * lo == (|p| as real) * lo + lo;
      assert (|s| as real) * hi == (|p| as real) * hi + hi;
    }
  }

  /** The mean of values lying in [lo, hi] lies in [lo, hi]. */
  lemma MeanBounds(s: seq<real>, lo: real, hi: real)
    requires |s| > 0
    requires forall i :: 0 <= i < |s| ==> lo <= s[i] <= hi
    ensures lo <= Mean(s) <= hi
  {
    SumBounds(s, lo, hi);
    var n := |s| as real;
    DivMonotone(n * lo, Sum(s), n);
    DivMonotone(Sum(s), n * hi, n);
  }

  /** min <= average <= max, before any rounding. */
  lemma MeanBetweenMinMax(s: seq<real>)
    requires |s| > 0
    ensures SeqMin(s) <= Mean(s) <= SeqMax(s)
  {
    MeanBounds(s, SeqMin(s), SeqMax(s));
  }

  /** `values.reduce((a, b) => a + Math.pow(b - avg, 2), 0)`. */
  function SumSquares(s: seq<real>, avg: real): real {
    if s == [] then 0.0 else SumSquares(s[..|s| - 1], avg) + (s[|s| - 1] - avg) * (s[|s| - 1] - avg)
  }

  /** The population variance: the square of the source's `stdDev`. */
  function Variance(s: seq<real>): real
    requires |s| > 0
  {
    SumSquares(s, Mean(s)) / (|s| as real)
  }

  lemma {:induction false} SumSquaresNonNegative(s: seq<real>, avg: real)
    ensures SumSquares(s, avg) >= 0.0
  {
    if s != [] {
      SumSquaresNonNegative(s[..|s| - 1], avg);
      SquareNonNegative(s[|s| - 1] - avg);
    }
  }

  lemma VarianceNonNegative(s: seq<real>)
    requires |s| > 0
    ensures Variance(s) >= 0.0
  {
    SumSquaresNonNegative(s, Mean(s));
    DivMonotone(0.0, SumSquares(s, Mean(s)), |s| as real);
  }

  /** A constant series has its value as mean and no spread. */
  lemma {:induction false} ConstantSeries(s: seq<real>, c: real)
    requires |s| > 0
    requires forall i :: 0 <= i < |s| ==> s[i] == c
    ensures Mean(s) == c && Variance(s) == 0.0
  {
    MeanBounds(s, c, c);
    ConstantSumSquares(s, c);
  }

  lemma {:induction false} ConstantSumSquares(s: seq<real>, c: real)
    requires forall i :: 0 <= i < |s| ==> s[i] == c
    ensures SumSquares(s, c) == 0.0
  {
    if s != [] {
      var p := s[..|s| - 1];
      assert forall i :: 0 <= i < |p| ==> p[i] == s[i];
      ConstantSumSquares(p, c);
    }
  }
}
