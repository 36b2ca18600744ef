/**
 * The two label-blind detectors: `detectSignificantDeviation` (one value
 * against the window average) and `detectExcessiveVariability` (the spread of a
 * whole series).
 */
module Detectors {
  import opened Wrappers
  import opened Numeric
  import opened Catalog

  /**
   * `detectSignificantDeviation(value, avg, metric)`: the distance from the
   * average strictly exceeds normalVariation × threshold. For a code without
   * a normal variation the source compares against `NaN`, which is false.
   */
  function DetectSignificantDeviation(value: real, avg: real, code: string): (flagged: bool)
    ensures flagged ==> IsMetric(code)
  {
    match NormalVariation(code)
    case None => false
    case Some(nv) => Abs(value - avg) > nv * SignificanceThreshold(code)
  }

  /** The threshold is strict: a value exactly at it is not flagged. */
  lemma DeviationAtThresholdNotFlagged(value: real, avg: real, code: string)
    requires IsMetric(code)
    requires Abs(value - avg) == NormalVariation(code).value * SignificanceThreshold(code)
    ensures !DetectSignificantDeviation(value, avg, code)
  {
  }

  /** Flagging depends only on the distance, in both directions. */
  lemma DeviationMonotone(value: real, other: real, avg: real, code: string)
    requires DetectSignificantDeviation(value, avg, code)
    requires Abs(other - avg) >= Abs(value - avg)
    ensures DetectSignificantDeviation(other, avg, code)
  {
  }

  /** Any flagged value is more than twice the metric's normal variation away from the average. */
  lemma FlaggedIsFarFromAverage(value: real, avg: real, code: string)
    requires DetectSignificantDeviation(value, avg, code)
    ensures Abs(value - avg) > 2.0 * NormalVariation(code).value
  {
    var nv := NormalVariation(code).value;
    MulMonotone(2.0, SignificanceThreshold(code), nv);
  }

  /**
   * A heart-rate reading of 85 against an average of 77.33 is 7.67 away, under
   * the 8 × 2.0 = 16 threshold: the point pass does not flag it.
   */
  lemma HeartRateExampleNotFlagged()
    ensures !DetectSignificantDeviation(85.0, 77.33, "hr")
  {
    assert NormalVariation("hr") == Some(8.0);
    assert SignificanceThreshold("hr") == 2.0;
  }

  /**
   * The source's test `cv > expectedCV`, with `cv = stdDev / avg × 100` and
   * `expectedCV = normalVariation / avg × 100 × threshold`.
   */
  function CvExceeds(stdDev: real, avg: real, nv: real, threshold: real): bool
    requires avg != 0.0
  {
    (stdDev / avg) * 100.0 > (nv / avg) * 100.0 * threshold
  }

  /**
   * `detectExcessiveVariability(values, metric)`, decided without a square
   * root: with k = normalVariation × cvThreshold, a positive average flags when
   * the variance exceeds k², a negative one when it is below k². A zero average
   * (an infinite or NaN ratio in the source) and a code without a normal
   * variation (NaN) never flag; neither do fewer than three values.
   */
  function DetectExcessiveVariability(values: seq<real>, code: string): (flagged: bool)
    ensures |values| < 3 ==> !flagged
    ensures flagged ==> IsMetric(code) && Mean(values) != 0.0
  {
    if |values| < 3 then false
    else
      match NormalVariation(code)
      case None => false
      case Some(nv) =>
        var avg := Mean(values);
        var k := nv * CvThreshold(code);
        if avg > 0.0 then Variance(values) > k * k
        else if avg < 0.0 then Variance(values) < k * k
        else false
  }

  lemma SquareLess(a: real, b: real)
    requires a >= 0.0 && b >= 0.0
    ensures a < b <==> a * a < b * b
  {
    if a < b {
      var g := b - a;
      var aa, ba, bb, bg := a * a, b * a, b * b, b * g;
      MulMonotone(a, b, a);
      MulMonotone(g, b, g);
      PositiveSquare(g);
      assert bb == ba + bg;
      assert aa <= ba < bb;
    } else {
      MulMonotone(b, a, b);
      MulMonotone(b, a, a);
    }
  }

  lemma PositiveSquare(g: real)
    requires g > 0.0
    ensures g * g > 0.0
  {
  }

  lemma CvExceedsIff(s: real, avg: real, nv: real, t: real)
    requires avg != 0.0
    ensures avg > 0.0 ==> (CvExceeds(s, avg, nv, t) <==> s > nv * t)
    ensures avg < 0.0 ==> (CvExceeds(s, avg, nv, t) <==> s < nv * t)
  {
    var c := 100.0 / avg;
    assert (s / avg) * 100.0 == c * s;
    assert (nv / avg) * 100.0 * t == c * (nv * t);
    assert c * s - c * (nv * t) == c * (s - nv * t);
    if avg > 0.0 {
      assert c > 0.0;
      if s > nv * t { assert c * (s - nv * t) > 0.0; }
      else { MulMonotone(s - nv * t, 0.0, c); }
    } else {
      assert c < 0.0;
      if s < nv * t { assert (-c) * (nv * t - s) > 0.0; assert c * (s - nv * t) == (-c) * (nv * t - s); }
      else { MulMonotone(0.0, s - nv * t, -c); assert c * (s - nv * t) == -((-c) * (s - nv * t)); }
    }
  }

  /**
   * For any true square root `stdDev` of the variance, the variance form
   * decides exactly as the source's coefficient-of-variation test does.
   */
  lemma VariabilityMatchesCvTest(values: seq<real>, code: string, stdDev: real)
    requires |values| >= 3 && IsMetric(code) && Mean(values) != 0.0
    requires stdDev >= 0.0 && stdDev * stdDev == Variance(values)
    ensures DetectExcessiveVariability(values, code)
        == CvExceeds(stdDev, Mean(values), NormalVariation(code).value, CvThreshold(code))
  {
    var nv := NormalVariation(code).value;
    var k := nv * CvThreshold(code);
    MulMonotone(0.0, nv, CvThreshold(code));
    CvExceedsIff(stdDev, Mean(values), nv, CvThreshold(code));
    SquareLess(k, stdDev);
    SquareLess(stdDev, k);
  }

  /** For a positive average: flagged exactly when the population standard deviation exceeds k. */
  lemma VariabilityIsStdDevThreshold(values: seq<real>, code: string, stdDev: real)
    requires |values| >= 3 && IsMetric(code) && Mean(values) > 0.0
    requires stdDev >= 0.0 && stdDev * stdDev == Variance(values)
    ensures DetectExcessiveVariability(values, code)
        <==> stdDev > NormalVariation(code).value * CvThreshold(code)
  {
    var nv := NormalVariation(code).value;
    var k := nv * CvThreshold(code);
    MulMonotone(0.0, nv, CvThreshold(code));
    SquareLess(k, stdDev);
  }

  /** A constant series of a non-negative value is never flagged. */
  lemma ConstantSeriesNotFlagged(values: seq<real>, code: string, c: real)
    requires c >= 0.0
    requires forall i :: 0 <= i < |values| ==> values[i] == c
    ensures !DetectExcessiveVariability(values, code)
  {
    if |values| >= 3 && IsMetric(code) {
      ConstantSeries(values, c);
      var k := NormalVariation(code).value * CvThreshold(code);
      SquareNonNegative(k);
    }
  }

  /**
   * A constant series of a negative value of a known metric is flagged: its
   * average is negative, so the expected coefficient of variation is
   * negative and the zero coefficient of the constant series exceeds it.
   */
  lemma NegativeConstantSeriesFlagged(values: seq<real>, code: string, c: real)
    requires c < 0.0 && |values| >= 3 && IsMetric(code)
    requires forall i :: 0 <= i < |values| ==> values[i] == c
    ensures DetectExcessiveVariability(values, code)
  {
    ConstantSeries(values, c);
    var nv := NormalVariation(code).value;
    MulMonotone(1.0, CvThreshold(code), nv);
    PositiveSquare(nv * CvThreshold(code));
  }
}
