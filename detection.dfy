/**
 * The three detection passes of `generateHealthTrendAnalysis`: the point pass
 * (one record per significantly deviating day), the variability pass (one
 * record per erratic metric, dated at its furthest point), and the fallback
 * ladder used when both found nothing.
 */
module Detection {
  import opened Wrappers
  import opened Numeric
  import opened Text
  import opened Calendar
  import opened Catalog
  import opened Detectors
  import opened Summary
  import opened Anomalies

  /** One entry of `metricTimeSeries[metric]`. */
  datatype SeriesPoint = SeriesPoint(day: int, value: real, date: Date)

  /** `formattedValue`: whole metrics with `Math.round`, the others with `toFixed(1)`. */
  function FormatValue(m: string, v: real): real {
    if IsWholeMetric(m) then RoundHalfUp(v, 0) else ToFixed(v, 1)
  }

  function FormatDecimals(m: string): nat {
    if IsWholeMetric(m) then 0 else 1
  }

  /** The printed value is the measured one up to half a unit of its last decimal. */
  lemma FormatValueClose(m: string, v: real)
    ensures Abs(FormatValue(m, v) - v) <= HalfUnit(FormatDecimals(m))
  {
    if IsWholeMetric(m) {
      RoundHalfUpClose(v, 0);
    } else {
      ToFixedClose(v, 1);
    }
  }

  /** The unrounded directional percent change both the point pass and the fallback ladder compute. */
  function RawPercent(v: real, avg: real): real
    requires avg != 0.0
  {
    if v > avg then (v / avg - 1.0) * 100.0 else (1.0 - v / avg) * 100.0
  }

  /** Against a positive average the raw percent change is never negative. */
  lemma RawPercentNonNegative(v: real, avg: real)
    requires avg > 0.0
    ensures RawPercent(v, avg) >= 0.0
  {
    if v > avg {
      DivMonotone(avg, v, avg);
    } else {
      DivMonotone(v, avg, avg);
    }
  }

  /** `Math.round` of the directional percent change. */
  function PercentChange(v: real, avg: real): int
    requires avg != 0.0
  {
    Units(RawPercent(v, avg), 0)
  }

  /** Against a positive average the percent change is never negative. */
  lemma PercentChangeNonNegative(v: real, avg: real)
    requires avg > 0.0
    ensures PercentChange(v, avg) >= 0
  {
    RawPercentNonNegative(v, avg);
    assert Pow10(0) == 1.0;
  }

  /** A percent change of at least 2 means the value is at least 1.5% away from the average. */
  lemma PercentChangeGate(v: real, avg: real)
    requires avg > 0.0 && PercentChange(v, avg) >= 2
    ensures Abs(v - avg) >= 0.015 * avg
  {
    assert Pow10(0) == 1.0;
    var q := v / avg;
    assert v == q * avg;
    if v > avg {
      assert (q - 1.0) * 100.0 + 0.5 >= 2.0;
      MulMonotone(0.015, q - 1.0, avg);
      assert (q - 1.0) * avg == v - avg;
    } else {
      assert (1.0 - q) * 100.0 + 0.5 >= 2.0;
      MulMonotone(0.015, 1.0 - q, avg);
      assert (1.0 - q) * avg == avg - v;
    }
  }

  /** The whole-number metrics vary by at least 1 a day. */
  lemma WholeMetricVariation(m: string)
    requires IsWholeMetric(m)
    ensures IsMetric(m) && NormalVariation(m).value >= 1.0
  {
  }

  /**
   * The decision for one point of a metric's series: inside the window, a
   * significant deviation, and a rounded percent change of at least 2.
   */
  function PointCheck(m: string, p: SeriesPoint, avg: real, start: Date, end: Date): Option<Anomaly>
    requires avg != 0.0
  {
    if ValidateDate(p.date, start, end) && DetectSignificantDeviation(p.value, avg, m)
       && PercentChange(p.value, avg) >= 2
    then Some(Point(p.value > avg, m, p.day, p.date, FormatValue(m, p.value), avg, PercentChange(p.value, avg)))
    else None
  }

  /**
   * A recorded point: its date is in the window, it is more than twice the
   * normal variation and at least 1.5% away from the average, and its type
   * (급증 or 급감) agrees with the printed value's side of the average.
   */
  lemma PointCheckRecorded(m: string, p: SeriesPoint, avg: real, start: Date, end: Date)
    requires avg > 0.0 && PointCheck(m, p, avg, start, end).Some?
    ensures var a := PointCheck(m, p, avg, start, end).value;
            && ValidateDate(a.date, start, end) && IsMetric(m)
            && a.percentChange >= 2
            && Abs(p.value - avg) > 2.0 * NormalVariation(m).value
            && Abs(p.value - avg) >= 0.015 * avg
            && (a.higher <==> p.value > avg)
            && (a.higher <==> a.value > a.avgValue)
  {
    FlaggedIsFarFromAverage(p.value, avg, m);
    PercentChangeGate(p.value, avg);
    FormatValueClose(m, p.value);
    if IsWholeMetric(m) {
      WholeMetricVariation(m);
    }
  }

  /** A point that fails any of the three conditions is not recorded. */
  lemma PointCheckSkipped(m: string, p: SeriesPoint, avg: real, start: Date, end: Date)
    requires avg != 0.0
    requires !ValidateDate(p.date, start, end) || !DetectSignificantDeviation(p.value, avg, m)
             || PercentChange(p.value, avg) < 2
    ensures PointCheck(m, p, avg, start, end).None?
  {
  }

  function OptionToSeq<T>(o: Option<T>): seq<T> {
    if o.Some? then [o.value] else []
  }

  /** The records of one metric's series, in order. */
  function PointsOfSeries(m: string, pts: seq<SeriesPoint>, avg: real, start: Date, end: Date): seq<Anomaly>
    requires avg != 0.0
  {
    if pts == [] then []
    else PointsOfSeries(m, pts[..|pts| - 1], avg, start, end) + OptionToSeq(PointCheck(m, pts[|pts| - 1], avg, start, end))
  }

  lemma PointsOfSeriesStep(m: string, pts: seq<SeriesPoint>, j: nat, avg: real, start: Date, end: Date)
    requires avg != 0.0 && j < |pts|
    ensures PointsOfSeries(m, pts[..j + 1], avg, start, end)
              == PointsOfSeries(m, pts[..j], avg, start, end) + OptionToSeq(PointCheck(m, pts[j], avg, start, end))
  {
    assert pts[..j + 1][..j] == pts[..j];
  }

  predicate SeriesReady(ms: seq<string>, series: map<string, seq<SeriesPoint>>, avg: map<string, real>) {
    forall i :: 0 <= i < |ms| ==> ms[i] in series && ms[i] in avg && avg[ms[i]] > 0.0
  }

  /** The point pass over the metrics in order. */
  function PointPass(ms: seq<string>, series: map<string, seq<SeriesPoint>>, avg: map<string, real>,
                     start: Date, end: Date): seq<Anomaly>
    requires SeriesReady(ms, series, avg)
  {
    if ms == [] then []
    else
      var m := ms[|ms| - 1];
      PointPass(ms[..|ms| - 1], series, avg, start, end) + PointsOfSeries(m, series[m], avg[m], start, end)
  }

  predicate DatesValid(pts: seq<SeriesPoint>) {
    forall k :: 0 <= k < |pts| ==> ValidDate(pts[k].date)
  }

  predicate PointRecord(a: Anomaly, avg: map<string, real>, start: Date, end: Date) {
    && a.Point? && WellFormed(a) && a.metric in avg
    && a.avgValue == avg[a.metric] && a.percentChange >= 2
    && ValidateDate(a.date, start, end)
    && (a.higher <==> a.value > a.avgValue)
  }

  lemma {:induction false} PointsOfSeriesRecords(m: string, pts: seq<SeriesPoint>, avg: map<string, real>,
                                                 start: Date, end: Date, k: nat)
    requires m in avg && avg[m] > 0.0 && DatesValid(pts)
    requires k < |PointsOfSeries(m, pts, avg[m], start, end)|
    ensures PointRecord(PointsOfSeries(m, pts, avg[m], start, end)[k], avg, start, end)
  {
    var n := |pts| - 1;
    var prefix := PointsOfSeries(m, pts[..n], avg[m], start, end);
    if k < |prefix| {
      PointsOfSeriesRecords(m, pts[..n], avg, start, end, k);
    } else {
      PointCheckRecorded(m, pts[n], avg[m], start, end);
    }
  }

  /** Every record of the point pass is a well-formed 급증/급감 record meeting the three conditions. */
  lemma {:induction false} PointPassRecords(ms: seq<string>, series: map<string, seq<SeriesPoint>>,
                                            avg: map<string, real>, start: Date, end: Date, k: nat)
    requires SeriesReady(ms, series, avg)
    requires forall i :: 0 <= i < |ms| ==> DatesValid(series[ms[i]])
    requires k < |PointPass(ms, series, avg, start, end)|
    ensures PointRecord(PointPass(ms, series, avg, start, end)[k], avg, start, end)
  {
    var n := |ms| - 1;
    var prefix := PointPass(ms[..n], series, avg, start, end);
    if k < |prefix| {
      PointPassRecords(ms[..n], series, avg, start, end, k);
    } else {
      PointsOfSeriesRecords(ms[n], series[ms[n]], avg, start, end, k - |prefix|);
    }
  }

  lemma PointPassWellFormed(ms: seq<string>, series: map<string, seq<SeriesPoint>>,
                            avg: map<string, real>, start: Date, end: Date)
    requires SeriesReady(ms, series, avg)
    requires forall i :: 0 <= i < |ms| ==> DatesValid(series[ms[i]])
    ensures AllWellFormed(PointPass(ms, series, avg, start, end))
  {
    forall k | 0 <= k < |PointPass(ms, series, avg, start, end)|
      ensures WellFormed(PointPass(ms, series, avg, start, end)[k])
    {
      PointPassRecords(ms, series, avg, start, end, k);
    }
  }

  /** Where the inner loop stands after the first j points: the records and comments so far. */
  ghost predicate Scanned(m: string, pts: seq<SeriesPoint>, avg: real, start: Date, end: Date, j: nat,
                          found: seq<Anomaly>, foundComments: seq<string>)
    requires avg != 0.0 && j <= |pts|
  {
    found == PointsOfSeries(m, pts[..j], avg, start, end) && AllWellFormed(found) && foundComments == RenderAll(found)
  }

  /** A point that passes the check is a well-formed record. */
  lemma PointCheckWellFormed(m: string, p: SeriesPoint, avg: real, start: Date, end: Date)
    requires avg != 0.0 && ValidDate(p.date)
    ensures PointCheck(m, p, avg, start, end).Some? ==> WellFormed(PointCheck(m, p, avg, start, end).value)
  {
  }

  lemma ScanStep(m: string, pts: seq<SeriesPoint>, avg: real, start: Date, end: Date, j: nat,
                 found: seq<Anomaly>, foundComments: seq<string>)
    requires avg != 0.0 && j < |pts| && ValidDate(pts[j].date)
    requires Scanned(m, pts, avg, start, end, j, found, foundComments)
    ensures var check := PointCheck(m, pts[j], avg, start, end);
            && (check.Some? ==> WellFormed(check.value))
            && (check.None? ==> Scanned(m, pts, avg, start, end, j + 1, found, foundComments))
            && (check.Some? ==>
                  Scanned(m, pts, avg, start, end, j + 1, found + [check.value], foundComments + [Render(check.value)]))
  {
    PointsOfSeriesStep(m, pts, j, avg, start, end);
    var check := PointCheck(m, pts[j], avg, start, end);
    PointCheckWellFormed(m, pts[j], avg, start, end);
    if check.Some? {
      MapSeqSnoc(found, check.value, Render);
    }
  }

  /** The inner loop of the point pass: one metric's series. */
  method DetectInSeries(m: string, pts: seq<SeriesPoint>, avg: real, start: Date, end: Date)
    returns (found: seq<Anomaly>, foundComments: seq<string>)
    requires avg > 0.0 && DatesValid(pts)
    ensures found == PointsOfSeries(m, pts, avg, start, end)
    ensures AllWellFormed(found) && foundComments == RenderAll(found)
  {
    found, foundComments := [], [];
    for j := 0 to |pts|
      invariant Scanned(m, pts, avg, start, end, j, found, foundComments)
    {
      ScanStep(m, pts, avg, start, end, j, found, foundComments);
      var check := PointCheck(m, pts[j], avg, start, end);
      if check.Some? {
        var a := check.value;
        found := found + [a];
        foundComments := foundComments + [Render(a)];
      }
    }
    assert pts[..|pts|] == pts;
  }

  /**
   * The point pass as the source runs it: for each metric, for each point,
   * push the record and its comment.
   */
  method DetectPoints(ms: seq<string>, series: map<string, seq<SeriesPoint>>, avg: map<string, real>,
                      start: Date, end: Date) returns (anomalies: seq<Anomaly>, comments: seq<string>)
    requires SeriesReady(ms, series, avg)
    requires forall i :: 0 <= i < |ms| ==> DatesValid(series[ms[i]])
    ensures anomalies == PointPass(ms, series, avg, start, end)
    ensures AllWellFormed(anomalies) && comments == RenderAll(anomalies)
  {
    anomalies, comments := [], [];
    for i := 0 to |ms|
      invariant anomalies == PointPass(ms[..i], series, avg, start, end)
      invariant AllWellFormed(anomalies) && comments == RenderAll(anomalies)
    {
      var m := ms[i];
      assert ms[..i + 1][..i] == ms[..i];
      var found, foundComments := DetectInSeries(m, series[m], avg[m], start, end);
      MapSeqAppend(anomalies, found, Render);
      anomalies := anomalies + found;
      comments := comments + foundComments;
    }
    assert ms[..|ms|] == ms;
  }

  /** `timeSeries.map(point => point.value)`. */
  function Values(pts: seq<SeriesPoint>): (vs: seq<real>)
    ensures |vs| == |pts|
    ensures forall k :: 0 <= k < |pts| ==> vs[k] == pts[k].value
  {
    seq(|pts|, k requires 0 <= k < |pts| => pts[k].value)
  }

  function Deviation(p: SeriesPoint, avg: real): real {
    Abs(p.value - avg)
  }

  /** The index of the first point whose distance from the average is largest. */
  function FirstFurthest(pts: seq<SeriesPoint>, avg: real): (i: nat)
    requires |pts| > 0
    ensures i < |pts|
  {
    if |pts| == 1 then 0
    else
      var b := FirstFurthest(pts[..|pts| - 1], avg);
      if Deviation(pts[|pts| - 1], avg) > Deviation(pts[b], avg) then |pts| - 1 else b
  }

  /** No point is further away, and every earlier point is strictly closer. */
  lemma {:induction false} FirstFurthestIsFirstMax(pts: seq<SeriesPoint>, avg: real)
    requires |pts| > 0
    ensures forall k :: 0 <= k < |pts| ==>
              Deviation(pts[k], avg) <= Deviation(pts[FirstFurthest(pts, avg)], avg)
    ensures forall k :: 0 <= k < FirstFurthest(pts, avg) ==>
              Deviation(pts[k], avg) < Deviation(pts[FirstFurthest(pts, avg)], avg)
  {
    if |pts| > 1 {
      var n := |pts| - 1;
      var prefix := pts[..n];
      FirstFurthestIsFirstMax(prefix, avg);
      assert forall k :: 0 <= k < n ==> prefix[k] == pts[k];
    }
  }

  /**
   * The search for the furthest point: `maxDeviation` starts at 0 and is
   * replaced only by a strictly larger deviation.
   */
  method FindFurthest(pts: seq<SeriesPoint>, avg: real) returns (best: nat)
    requires |pts| > 0
    ensures best == FirstFurthest(pts, avg)
  {
    var maxDeviation := 0.0;
    best := 0;
    for k := 0 to |pts|
      invariant k == 0 ==> best == 0 && maxDeviation == 0.0
      invariant k > 0 ==> best == FirstFurthest(pts[..k], avg) && maxDeviation == Deviation(pts[best], avg)
    {
      assert k > 0 ==> pts[..k + 1][..k] == pts[..k];
      var deviation := Abs(pts[k].value - avg);
      if deviation > maxDeviation {
        maxDeviation := deviation;
        best := k;
      }
    }
    assert pts[..|pts|] == pts;
  }

  /**
   * The decision for one metric: at least three points, excessive
   * variability, and the furthest point dated inside the original window.
   * `sqrt` is the square root used only for the printed coefficient.
   */
  function VariabilityCheck(m: string, pts: seq<SeriesPoint>, sqrt: real -> real, start: Date, end: Date): Option<Anomaly>
  {
    if |pts| < 3 || !DetectExcessiveVariability(Values(pts), m) then None
    else
      var vs := Values(pts);
      var avg := Mean(vs);
      var cv := ToFixed((sqrt(Variance(vs)) / avg) * 100.0, 1);
      var p := pts[FirstFurthest(pts, avg)];
      if ValidateDate(p.date, start, end) then Some(Variability(m, p.date, FormatValue(m, p.value), cv)) else None
  }

  /** The records of the variability pass, over the metrics in order. */
  function VariabilityPass(ms: seq<string>, series: map<string, seq<SeriesPoint>>, sqrt: real -> real,
                           start: Date, end: Date): seq<Anomaly>
    requires forall i :: 0 <= i < |ms| ==> ms[i] in series
  {
    if ms == [] then []
    else
      var m := ms[|ms| - 1];
      VariabilityPass(ms[..|ms| - 1], series, sqrt, start, end) + OptionToSeq(VariabilityCheck(m, series[m], sqrt, start, end))
  }

  predicate VariabilityRecord(a: Anomaly, series: map<string, seq<SeriesPoint>>, start: Date, end: Date) {
    && a.Variability? && a.metric in series && |series[a.metric]| >= 3
    && DetectExcessiveVariability(Values(series[a.metric]), a.metric)
    && a.date == series[a.metric][FirstFurthest(series[a.metric], Mean(Values(series[a.metric])))].date
    && ValidateDate(a.date, start, end)
  }

  /**
   * Every record of the variability pass is for a flagged metric with at least
   * three points, dated at its first furthest point, inside the window.
   */
  lemma {:induction false} VariabilityPassRecords(ms: seq<string>, series: map<string, seq<SeriesPoint>>,
                                                  sqrt: real -> real, start: Date, end: Date, k: nat)
    requires forall i :: 0 <= i < |ms| ==> ms[i] in series
    requires k < |VariabilityPass(ms, series, sqrt, start, end)|
    ensures VariabilityRecord(VariabilityPass(ms, series, sqrt, start, end)[k], series, start, end)
  {
    var n := |ms| - 1;
    var prefix := VariabilityPass(ms[..n], series, sqrt, start, end);
    if k < |prefix| {
      VariabilityPassRecords(ms[..n], series, sqrt, start, end, k);
    }
  }

  lemma VariabilityPassWellFormed(ms: seq<string>, series: map<string, seq<SeriesPoint>>,
                                  sqrt: real -> real, start: Date, end: Date)
    requires forall i :: 0 <= i < |ms| ==> ms[i] in series && DatesValid(series[ms[i]])
    ensures AllWellFormed(VariabilityPass(ms, series, sqrt, start, end))
  {
    forall k | 0 <= k < |VariabilityPass(ms, series, sqrt, start, end)|
      ensures WellFormed(VariabilityPass(ms, series, sqrt, start, end)[k])
    {
      VariabilityPassRecords(ms, series, sqrt, start, end, k);
      var a := VariabilityPass(ms, series, sqrt, start, end)[k];
      var pts := series[a.metric];
      var i := FirstFurthest(pts, Mean(Values(pts)));
      assert ValidDate(pts[i].date);
    }
  }

  /**
   * The body of the variability pass for one metric: average, standard
   * deviation and its coefficient, the furthest point, and the window check.
   */
  method VariabilityOfMetric(m: string, pts: seq<SeriesPoint>, sqrt: real -> real, start: Date, end: Date)
    returns (found: Option<Anomaly>)
    requires DatesValid(pts)
    ensures found == VariabilityCheck(m, pts, sqrt, start, end)
    ensures found.Some? ==> WellFormed(found.value)
  {
    found := None;
    if |pts| >= 3 {
      var values := Values(pts);
      if DetectExcessiveVariability(values, m) {
        var avg := Mean(values);
        var stdDev := sqrt(Variance(values));
        var cv := ToFixed((stdDev / avg) * 100.0, 1);
        var best := FindFurthest(pts, avg);
        var p := pts[best];
        if ValidateDate(p.date, start, end) {
          found := Some(Variability(m, p.date, FormatValue(m, p.value), cv));
        }
      }
    }
  }

  /** The variability pass as the source runs it: one record and one comment per flagged metric. */
  method DetectVariability(ms: seq<string>, series: map<string, seq<SeriesPoint>>, sqrt: real -> real,
                           start: Date, end: Date) returns (anomalies: seq<Anomaly>, comments: seq<string>)
    requires forall i :: 0 <= i < |ms| ==> ms[i] in series && DatesValid(series[ms[i]])
    ensures anomalies == VariabilityPass(ms, series, sqrt, start, end)
    ensures AllWellFormed(anomalies) && comments == RenderAll(anomalies)
  {
    anomalies, comments := [], [];
    for i := 0 to |ms|
      invariant anomalies == VariabilityPass(ms[..i], series, sqrt, start, end)
      invariant AllWellFormed(anomalies) && comments == RenderAll(anomalies)
    {
      var m := ms[i];
      assert ms[..i + 1][..i] == ms[..i];
      var found := VariabilityOfMetric(m, series[m], sqrt, start, end);
      if found.Some? {
        var a := found.value;
        MapSeqSnoc(anomalies, a, Render);
        anomalies := anomalies + [a];
        comments := comments + [Render(a)];
      }
    }
    assert ms[..|ms|] == ms;
  }

  /** A (metric index, record index) pair of the fallback scan. */
  datatype Pick = Pick(metricIndex: nat, dayIndex: nat)

  predicate LadderReady(ms: seq<string>, valid: seq<DailyRecord>, avg: map<string, real>) {
    forall i :: 0 <= i < |ms| ==> ms[i] in avg && HasMetric(valid, ms[i])
  }

  /** A pair the scan does not skip: a non-zero average and a non-zero value. */
  predicate Eligible(ms: seq<string>, valid: seq<DailyRecord>, avg: map<string, real>, i: nat, j: nat)
    requires LadderReady(ms, valid, avg)
  {
    i < |ms| && j < |valid| && avg[ms[i]] != 0.0 && valid[j].values[ms[i]] != 0.0
  }

  function PickPercent(ms: seq<string>, valid: seq<DailyRecord>, avg: map<string, real>, i: nat, j: nat): real
    requires LadderReady(ms, valid, avg) && Eligible(ms, valid, avg, i, j)
  {
    RawPercent(valid[j].values[ms[i]], avg[ms[i]])
  }

  /** Scan order: metric by metric, each over the records in order. */
  predicate ScannedBefore(i: nat, j: nat, p: Pick) {
    i < p.metricIndex || (i == p.metricIndex && j < p.dayIndex)
  }

  /**
   * What the fallback scan picks: an eligible pair whose raw percent change
   * exceeds -1, is maximal among eligible pairs, and is strictly larger than
   * that of every eligible pair scanned before it; `None` when no eligible
   * pair exceeds -1.
   */
  ghost predicate IsLadderPick(ms: seq<string>, valid: seq<DailyRecord>, avg: map<string, real>, best: Option<Pick>)
    requires LadderReady(ms, valid, avg)
  {
    && (best.Some? ==> Eligible(ms, valid, avg, best.value.metricIndex, best.value.dayIndex))
    && (best.Some? ==> PickPercent(ms, valid, avg, best.value.metricIndex, best.value.dayIndex) > -1.0)
    && (forall i: nat, j: nat :: Eligible(ms, valid, avg, i, j) ==>
          PickPercent(ms, valid, avg, i, j)
            <= if best.Some? then PickPercent(ms, valid, avg, best.value.metricIndex, best.value.dayIndex) else -1.0)
    && (best.Some? ==> forall i: nat, j: nat :: Eligible(ms, valid, avg, i, j) && ScannedBefore(i, j, best.value) ==>
          PickPercent(ms, valid, avg, i, j) < PickPercent(ms, valid, avg, best.value.metricIndex, best.value.dayIndex))
  }

  /** The description above leaves no choice: at most one result satisfies it. */
  lemma LadderPickUnique(ms: seq<string>, valid: seq<DailyRecord>, avg: map<string, real>, b1: Option<Pick>, b2: Option<Pick>)
    requires LadderReady(ms, valid, avg)
    requires IsLadderPick(ms, valid, avg, b1) && IsLadderPick(ms, valid, avg, b2)
    ensures b1 == b2
  {
    if b2.Some? {
      var q := b2.value;
      assert PickPercent(ms, valid, avg, q.metricIndex, q.dayIndex) > -1.0;
      assert b1.Some?;
    }
    if b1.Some? {
      var p := b1.value;
      assert PickPercent(ms, valid, avg, p.metricIndex, p.dayIndex) > -1.0;
      assert b2.Some?;
      var q := b2.value;
      assert PickPercent(ms, valid, avg, p.metricIndex, p.dayIndex) <= PickPercent(ms, valid, avg, q.metricIndex, q.dayIndex);
      assert PickPercent(ms, valid, avg, q.metricIndex, q.dayIndex) <= PickPercent(ms, valid, avg, p.metricIndex, p.dayIndex);
      assert !ScannedBefore(p.metricIndex, p.dayIndex, q) && !ScannedBefore(q.metricIndex, q.dayIndex, p);
    }
  }

  /**
   * The scan of the fallback ladder. `maxDiff` starts at -1, and a pair
   * replaces the current pick only with a strictly larger raw percent
   * change, so the pick is the first pair of maximal change.
   */
  method LargestDeviation(ms: seq<string>, valid: seq<DailyRecord>, avg: map<string, real>) returns (best: Option<Pick>)
    requires LadderReady(ms, valid, avg)
    ensures IsLadderPick(ms, valid, avg, best)
  {
    var maxDiff := -1.0;
    best := None;
    for i := 0 to |ms|
      invariant best.None? ==> maxDiff == -1.0
      invariant best.Some? ==> best.value.metricIndex < i && Eligible(ms, valid, avg, best.value.metricIndex, best.value.dayIndex)
      invariant best.Some? ==> maxDiff == PickPercent(ms, valid, avg, best.value.metricIndex, best.value.dayIndex) > -1.0
      invariant forall i': nat, j: nat :: i' < i && Eligible(ms, valid, avg, i', j) ==> PickPercent(ms, valid, avg, i', j) <= maxDiff
      invariant best.Some? ==> forall i': nat, j: nat :: Eligible(ms, valid, avg, i', j) && ScannedBefore(i', j, best.value) ==>
                  PickPercent(ms, valid, avg, i', j) < maxDiff
    {
      var m := ms[i];
      var avgValue := avg[m];
      if avgValue == 0.0 {
        continue;
      }
      for j := 0 to |valid|
        invariant best.None? ==> maxDiff == -1.0
        invariant best.Some? ==> best.value.metricIndex <= i && Eligible(ms, valid, avg, best.value.metricIndex, best.value.dayIndex)
        invariant best.Some? && best.value.metricIndex == i ==> best.value.dayIndex < j
        invariant best.Some? ==> maxDiff == PickPercent(ms, valid, avg, best.value.metricIndex, best.value.dayIndex) > -1.0
        invariant forall i': nat, j': nat :: (i' < i || (i' == i && j' < j)) && Eligible(ms, valid, avg, i', j') ==>
                    PickPercent(ms, valid, avg, i', j') <= maxDiff
        invariant best.Some? ==> forall i': nat, j': nat :: Eligible(ms, valid, avg, i', j') && ScannedBefore(i', j', best.value) ==>
                    PickPercent(ms, valid, avg, i', j') < maxDiff
      {
        var value := valid[j].values[m];
        if value == 0.0 {
          continue;
        }
        var percentChange := RawPercent(value, avgValue);
        if percentChange > maxDiff {
          maxDiff := percentChange;
          best := Some(Pick(i, j));
        }
      }
    }
  }

  /** With a positive average and a positive first value, the scan always picks something. */
  lemma LadderAlwaysPicks(ms: seq<string>, valid: seq<DailyRecord>, avg: map<string, real>, best: Option<Pick>)
    requires LadderReady(ms, valid, avg) && |ms| > 0 && |valid| > 0
    requires avg[ms[0]] > 0.0 && valid[0].values[ms[0]] > 0.0
    requires IsLadderPick(ms, valid, avg, best)
    ensures best.Some?
  {
    RawPercentNonNegative(valid[0].values[ms[0]], avg[ms[0]]);
    assert Eligible(ms, valid, avg, 0, 0);
  }

  function DatesOf(daily: seq<DailyRecord>): (ds: seq<Date>)
    ensures |ds| == |daily|
    ensures forall k :: 0 <= k < |daily| ==> ds[k] == daily[k].date
  {
    seq(|daily|, k requires 0 <= k < |daily| => daily[k].date)
  }

  /**
   * The record of the ladder's pick. Its `day` is
   * `validDailyData.findIndex(d => d.d === maxDiffDay) + 1`.
   */
  function FallbackRecord(ms: seq<string>, valid: seq<DailyRecord>, avg: map<string, real>, p: Pick): (a: Anomaly)
    requires LadderReady(ms, valid, avg) && Eligible(ms, valid, avg, p.metricIndex, p.dayIndex)
  {
    var m := ms[p.metricIndex];
    var v := valid[p.dayIndex].values[m];
    var date := valid[p.dayIndex].date;
    assert DatesOf(valid)[p.dayIndex] == date;
    Point(v > avg[m], m, FirstIndex(DatesOf(valid), date) + 1, date, FormatValue(m, v), avg[m],
          PercentChange(v, avg[m]))
  }

  /** With distinct dates, the ladder's `day` is the pick's position, counted from one. */
  lemma FallbackDay(ms: seq<string>, valid: seq<DailyRecord>, avg: map<string, real>, p: Pick)
    requires LadderReady(ms, valid, avg) && Eligible(ms, valid, avg, p.metricIndex, p.dayIndex)
    requires Distinct(DatesOf(valid))
    ensures FallbackRecord(ms, valid, avg, p).day == p.dayIndex + 1
  {
    var ds := DatesOf(valid);
    var k := FirstIndex(ds, valid[p.dayIndex].date);
    assert ds[p.dayIndex] == valid[p.dayIndex].date;
    if k < p.dayIndex {
      assert false;
    } else if k > p.dayIndex {
      assert false;
    }
  }

  /**
   * The last resort: heart rate 5% above its average (70 when the average is
   * zero or missing), dated at the first valid record or at the window start.
   */
  function Placeholder(avg: map<string, real>, valid: seq<DailyRecord>, start: Date): (a: Anomaly)
  {
    var avgValue := if "hr" in avg && avg["hr"] != 0.0 then avg["hr"] else 70.0;
    var date := if |valid| > 0 then valid[0].date else start;
    Point(true, "hr", 1, date, RoundHalfUp(avgValue * 1.05, 0), avgValue, 5)
  }

  /** The placeholder reports a 5% rise with a value within half a beat of 1.05 × the average. */
  lemma PlaceholderRise(avg: map<string, real>, valid: seq<DailyRecord>, start: Date)
    ensures var a := Placeholder(avg, valid, start);
            && a.Point? && a.higher && a.metric == "hr" && a.percentChange == 5 && a.day == 1
            && Abs(a.value - 1.05 * a.avgValue) <= 0.5
            && a.avgValue != 0.0
  {
    var a := Placeholder(avg, valid, start);
    RoundHalfUpClose(a.avgValue * 1.05, 0);
    assert HalfUnit(0) == 0.5;
  }

  /**
   * `dailyData.reduce((earliest, data) => data.d < earliest ? data.d : earliest, dailyData[0].d)`:
   * the earliest date, keeping the first one on ties.
   */
  function Earliest(ds: seq<Date>): (e: Date)
    requires |ds| > 0
  {
    if |ds| == 1 then ds[0]
    else
      var acc := Earliest(ds[..|ds| - 1]);
      if Before(ds[|ds| - 1], acc) then ds[|ds| - 1] else acc
  }

  /** The mirror reduction with `>`: the latest date. */
  function Latest(ds: seq<Date>): (l: Date)
    requires |ds| > 0
  {
    if |ds| == 1 then ds[0]
    else
      var acc := Latest(ds[..|ds| - 1]);
      if Before(acc, ds[|ds| - 1]) then ds[|ds| - 1] else acc
  }

  /** The earliest date is one of the dates and is not after any of them. */
  lemma {:induction false} EarliestIsMinimum(ds: seq<Date>)
    requires |ds| > 0
    ensures Earliest(ds) in ds
    ensures forall k :: 0 <= k < |ds| ==> NotAfter(Earliest(ds), ds[k])
  {
    if |ds| > 1 {
      var p := ds[..|ds| - 1];
      EarliestIsMinimum(p);
      assert forall k :: 0 <= k < |p| ==> ds[k] == p[k];
      var acc := Earliest(p);
      if Before(ds[|ds| - 1], acc) {
        forall k | 0 <= k < |ds|
          ensures NotAfter(ds[|ds| - 1], ds[k])
        {
          if k < |p| && acc != ds[k] {
            BeforeTransitive(ds[|ds| - 1], acc, ds[k]);
          }
        }
      }
    }
  }

  /** The latest date is one of the dates and no date is after it. */
  lemma {:induction false} LatestIsMaximum(ds: seq<Date>)
    requires |ds| > 0
    ensures Latest(ds) in ds
    ensures forall k :: 0 <= k < |ds| ==> NotAfter(ds[k], Latest(ds))
  {
    if |ds| > 1 {
      var p := ds[..|ds| - 1];
      LatestIsMaximum(p);
      assert forall k :: 0 <= k < |p| ==> ds[k] == p[k];
      var acc := Latest(p);
      if Before(acc, ds[|ds| - 1]) {
        forall k | 0 <= k < |ds|
          ensures NotAfter(ds[k], ds[|ds| - 1])
        {
          if k < |p| && acc != ds[k] {
            BeforeTransitive(ds[k], acc, ds[|ds| - 1]);
          }
        }
      }
    }
  }

  /** `dailyData.filter(data => validateDate(data.d, start, end))`. */
  function InWindow(daily: seq<DailyRecord>, start: Date, end: Date): (kept: seq<DailyRecord>)
  {
    if daily == [] then []
    else
      var rest := InWindow(daily[..|daily| - 1], start, end);
      var last := daily[|daily| - 1];
      if ValidateDate(last.date, start, end) then rest + [last] else rest
  }

  /** The filter keeps a record exactly when its date is in the window. */
  lemma {:induction false} InWindowMembers(daily: seq<DailyRecord>, start: Date, end: Date)
    ensures forall r :: r in InWindow(daily, start, end) <==> r in daily && ValidateDate(r.date, start, end)
  {
    if daily != [] {
      var p := daily[..|daily| - 1];
      InWindowMembers(p, start, end);
      assert daily == p + [daily[|daily| - 1]];
    }
  }

  /** When every date is in the window, nothing is dropped. */
  lemma {:induction false} InWindowKeepsWhenAllInside(daily: seq<DailyRecord>, start: Date, end: Date)
    requires forall k :: 0 <= k < |daily| ==> ValidateDate(daily[k].date, start, end)
    ensures InWindow(daily, start, end) == daily
  {
    if daily != [] {
      var p := daily[..|daily| - 1];
      InWindowKeepsWhenAllInside(p, start, end);
      assert p + [daily[|daily| - 1]] == daily;
    }
  }

  /**
   * The window the source filters by is spanned by the records' own dates, so
   * `validDailyData` is all of `dailyData`.
   */
  lemma ValidDailyIsAll(daily: seq<DailyRecord>)
    requires |daily| > 0
    ensures var ds := DatesOf(daily);
            InWindow(daily, Earliest(ds), Latest(ds)) == daily
  {
    var ds := DatesOf(daily);
    EarliestIsMinimum(ds);
    LatestIsMaximum(ds);
    InWindowKeepsWhenAllInside(daily, Earliest(ds), Latest(ds));
  }
}
