/**
 * `generateHealthDataSet` of the normal generator: one to five measured
 * dates out of a five-day window, eleven values per date scattered narrowly
 * around personal baselines, the window summary over all eleven metrics
 * (height included), no anomalies, the fixed all-normal comment, and three
 * recommended dishes.
 */
module NormalData {
  import opened Numeric
  import opened Text
  import opened Calendar
  import opened Catalog
  import opened Sampling
  import opened Selection
  import opened Summary
  import opened Anomalies
  import opened TrendAnalysis

  /** The personal baseline ranges `baseBF` … `baseDia`, and `baseWeight`. */
  function NormalRange(m: string): (r: BaseRange)
    requires IsMetric(m)
    ensures r.lo < r.hi && r.decimals <= 2
  {
    match m
    case "bf" => BaseRange(18.0, 27.0, 2)
    case "mm" => BaseRange(42.0, 48.0, 2)
    case "bw" => BaseRange(50.0, 56.0, 2)
    case "prot" => BaseRange(17.0, 20.0, 2)
    case "min" => BaseRange(4.0, 5.0, 2)
    case "wt" => BaseRange(50.0, 85.0, 1)
    case "hr" => BaseRange(55.0, 75.0, 1)
    case "o2" => BaseRange(96.0, 99.0, 1)
    case "sys" => BaseRange(110.0, 135.0, 1)
    case "dia" => BaseRange(70.0, 85.0, 1)
  }

  /** How far one day's value may stray from its baseline. */
  function DailySpread(m: string): (s: real)
    requires IsMetric(m)
    ensures 0.0 < s <= 2.0
  {
    match m
    case "bf" => 0.3
    case "mm" => 0.3
    case "bw" => 0.3
    case "prot" => 0.2
    case "min" => 0.1
    case "wt" => 0.5
    case "hr" => 2.0
    case "o2" => 1.0
    case "sys" => 2.0
    case "dia" => 2.0
  }

  /**
   * One day's value: `randomInRange(base - s, base + s, d)` with the
   * metric's decimals, then `Math.round` for the vitals.
   */
  function NormalValue(m: string, base: real, u: real): real
    requires IsMetric(m)
  {
    var s := DailySpread(m);
    var v := RandomInRange(base - s, base + s, SummaryDecimals(m), u);
    if IsWholeMetric(m) then RoundHalfUp(v, 0) else v
  }

  /**
   * A day's value stays within the spread of its baseline, up to the
   * rounding to the metric's decimals; for the vitals the `Math.round`
   * after `toFixed(0)` changes nothing and the value is whole.
   */
  lemma NormalValueNearBase(m: string, base: real, u: real)
    requires IsMetric(m) && IsDraw(u)
    ensures var v := NormalValue(m, base, u);
            && base - DailySpread(m) - HalfUnit(SummaryDecimals(m)) <= v <= base + DailySpread(m) + HalfUnit(SummaryDecimals(m))
            && (IsWholeMetric(m) ==> v == v.Floor as real)
  {
    var s := DailySpread(m);
    var d := SummaryDecimals(m);
    var v := RandomInRange(base - s, base + s, d, u);
    RandomInRangeBounds(base - s, base + s, d, u);
    if IsWholeMetric(m) {
      assert d == 0;
      ToFixedWhole(u * ((base + s) - (base - s)) + (base - s));
    }
  }

  /**
   * Every daily value lies in the metric's baseline range widened by the
   * daily spread and by two roundings (the baseline's and the day's).
   */
  predicate WithinNormalBand(m: string, v: real)
    requires IsMetric(m)
  {
    var r := NormalRange(m);
    var slack := DailySpread(m) + HalfUnit(r.decimals) + HalfUnit(SummaryDecimals(m));
    r.lo - slack <= v <= r.hi + slack
  }

  lemma NormalValueInBand(m: string, uBase: real, u: real)
    requires IsMetric(m) && IsDraw(uBase) && IsDraw(u)
    ensures WithinNormalBand(m, NormalValue(m, RandomInRange(NormalRange(m).lo, NormalRange(m).hi, NormalRange(m).decimals, uBase), u))
  {
    var r := NormalRange(m);
    var base := RandomInRange(r.lo, r.hi, r.decimals, uBase);
    RandomInRangeBounds(r.lo, r.hi, r.decimals, uBase);
    NormalValueNearBase(m, base, u);
  }

  /** The eleven summarised metrics, in the order of the source's list. */
  const NormalMetrics: seq<string> := ["bf", "mm", "bw", "prot", "min", "wt", "ht", "hr", "o2", "sys", "dia"]

  lemma NormalMetricsAreRecordKeys()
    ensures forall i :: 0 <= i < |NormalMetrics| ==> NormalMetrics[i] in RecordKeys
  {
    forall i | 0 <= i < |NormalMetrics|
      ensures NormalMetrics[i] in RecordKeys
    {
      if i != 6 {
        var j := if i < 6 then i else i - 1;
        assert NormalMetrics[i] == AllMetrics[j];
      }
    }
  }

  lemma HeightIsNormalMetric()
    ensures NormalMetrics[6] == Height
  {
  }

  /** The draws of one data set; `bases` holds one draw per metric, in `AllMetrics` order. */
  datatype NormalDraws = NormalDraws(height: real, year: real, month: real, day: real, bases: seq<real>,
                                     measurementDays: real, datePicks: seq<real>, samples: seq<seq<real>>,
                                     foods: seq<string>, shuffledFoods: seq<string>)

  ghost predicate WellDrawn(d: NormalDraws) {
    && IsDraw(d.height) && IsDraw(d.year) && IsDraw(d.month) && IsDraw(d.day)
    && |d.bases| == |AllMetrics| && AllDraws(d.bases)
    && IsDraw(d.measurementDays) && |d.datePicks| >= 5 && AllDraws(d.datePicks)
    && |d.samples| >= 5 && (forall k :: 0 <= k < |d.samples| ==> |d.samples[k]| == |AllMetrics| && AllDraws(d.samples[k]))
    && multiset(d.shuffledFoods) == multiset(d.foods)
  }

  /** The ten baselines, drawn from their ranges. */
  function NormalBaselines(baseDraws: seq<real>): (bases: seq<real>)
    requires |baseDraws| == |AllMetrics|
    ensures |bases| == |AllMetrics|
    ensures forall i :: 0 <= i < |AllMetrics| ==>
              bases[i] == RandomInRange(NormalRange(AllMetrics[i]).lo, NormalRange(AllMetrics[i]).hi,
                                        NormalRange(AllMetrics[i]).decimals, baseDraws[i])
  {
    seq(|AllMetrics|, i requires 0 <= i < |AllMetrics| =>
      RandomInRange(NormalRange(AllMetrics[i]).lo, NormalRange(AllMetrics[i]).hi, NormalRange(AllMetrics[i]).decimals, baseDraws[i]))
  }

  /** The values of the object pushed for one date: each metric's value, and the height. */
  function NormalValues(bases: seq<real>, height: real, sample: seq<real>): (values: map<string, real>)
    requires |bases| == |AllMetrics| && |sample| == |AllMetrics|
    ensures values.Keys == RecordKeys
  {
    map m | m in RecordKeys ::
      if m == Height then height
      else NormalValue(m, bases[FirstIndex(AllMetrics, m)], sample[FirstIndex(AllMetrics, m)])
  }

  function NormalRecord(date: Date, bases: seq<real>, height: real, sample: seq<real>): (r: DailyRecord)
    requires |bases| == |AllMetrics| && |sample| == |AllMetrics|
    ensures r.values.Keys == RecordKeys && r.date == date
  {
    DailyRecord(NormalValues(bases, height, sample), date)
  }

  lemma NormalRecordValue(date: Date, bases: seq<real>, height: real, sample: seq<real>, i: nat)
    requires |bases| == |AllMetrics| && |sample| == |AllMetrics| && i < |AllMetrics|
    ensures NormalRecord(date, bases, height, sample).values[AllMetrics[i]] == NormalValue(AllMetrics[i], bases[i], sample[i])
  {
    AllMetricsDistinct();
    assert AllMetrics[i] in RecordKeys;
    assert FirstIndex(AllMetrics, AllMetrics[i]) == i;
  }

  /** The first n records of the date loop. */
  function NormalRecords(dates: seq<Date>, bases: seq<real>, height: real, samples: seq<seq<real>>, n: nat): (daily: seq<DailyRecord>)
    requires n <= |dates| && |bases| == |AllMetrics| && |samples| >= |dates|
    requires forall k :: 0 <= k < |samples| ==> |samples[k]| == |AllMetrics|
    ensures |daily| == n
    ensures forall k :: 0 <= k < n ==> daily[k] == NormalRecord(dates[k], bases, height, samples[k])
  {
    seq(n, k requires 0 <= k < n => NormalRecord(dates[k], bases, height, samples[k]))
  }

  lemma NormalRecordsSnoc(dates: seq<Date>, bases: seq<real>, height: real, samples: seq<seq<real>>, n: nat)
    requires n < |dates| && |bases| == |AllMetrics| && |samples| >= |dates|
    requires forall k :: 0 <= k < |samples| ==> |samples[k]| == |AllMetrics|
    ensures NormalRecords(dates, bases, height, samples, n + 1)
            == NormalRecords(dates, bases, height, samples, n) + [NormalRecord(dates[n], bases, height, samples[n])]
  {
    var a := NormalRecords(dates, bases, height, samples, n + 1);
    var b := NormalRecords(dates, bases, height, samples, n);
    forall k | 0 <= k < n ensures a[k] == b[k] {
      assert a[k] == NormalRecord(dates[k], bases, height, samples[k]);
    }
    SnocFromElements(a, b, NormalRecord(dates[n], bases, height, samples[n]));
  }

  /** The `for … of selectedDates` loop: one record per date, in date order. */
  method MeasureNormalDays(dates: seq<Date>, bases: seq<real>, height: real, samples: seq<seq<real>>)
    returns (daily: seq<DailyRecord>)
    requires |bases| == |AllMetrics| && |samples| >= |dates|
    requires forall k :: 0 <= k < |samples| ==> |samples[k]| == |AllMetrics|
    ensures daily == NormalRecords(dates, bases, height, samples, |dates|)
  {
    daily := [];
    for n := 0 to |dates|
      invariant daily == NormalRecords(dates, bases, height, samples, n)
    {
      var record := NormalRecord(dates[n], bases, height, samples[n]);
      NormalRecordsSnoc(dates, bases, height, samples, n);
      daily := daily + [record];
    }
  }

  /** `cmt.g` of every normal data set. */
  const AllNormalSentence: string := "모든 지표가 평균 범위 내에 있습니다."

  /** The generated pair: the window (`ws`, `we`), `dm`, `wsum`, `anom`, `cmt.g` and `fd`. */
  datatype NormalSet = NormalSet(start: Date, end: Date, daily: seq<DailyRecord>, wsum: WindowSummary,
                                 anomalies: seq<Anomaly>, comment: string, food: seq<string>)

  /** The window facts of the measured dates. */
  lemma DatesInWindow(dates: seq<Date>, start: Date)
    requires ValidDate(start)
    requires forall k :: 0 <= k < |dates| ==> dates[k] in CandidateDates(start)
    ensures forall k :: 0 <= k < |dates| ==>
              NotAfter(start, dates[k]) && NotAfter(dates[k], AddDays(start, 4)) && ValidDate(dates[k])
  {
    forall k | 0 <= k < |dates|
      ensures NotAfter(start, dates[k]) && NotAfter(dates[k], AddDays(start, 4)) && ValidDate(dates[k])
    {
      var i :| 0 <= i < 5 && CandidateDates(start)[i] == dates[k];
      AddDaysMonotone(start, 0, i);
      AddDaysMonotone(start, i, 4);
      CandidateDatesDistinct(start);
    }
  }

  /** Every record's values lie in their bands and its height is the drawn height. */
  lemma RecordsInBand(d: NormalDraws, dates: seq<Date>, daily: seq<DailyRecord>)
    requires WellDrawn(d) && |dates| <= 5 && |daily| == |dates|
    requires forall k :: 0 <= k < |dates| ==>
               daily[k] == NormalRecord(dates[k], NormalBaselines(d.bases), RandomInRange(155.0, 190.0, 1, d.height), d.samples[k])
    ensures forall k, i :: 0 <= k < |daily| && 0 <= i < |AllMetrics| ==>
              AllMetrics[i] in daily[k].values && WithinNormalBand(AllMetrics[i], daily[k].values[AllMetrics[i]])
  {
    var bases := NormalBaselines(d.bases);
    forall k, i | 0 <= k < |daily| && 0 <= i < |AllMetrics|
      ensures AllMetrics[i] in daily[k].values && WithinNormalBand(AllMetrics[i], daily[k].values[AllMetrics[i]])
    {
      NormalRecordValue(dates[k], bases, RandomInRange(155.0, 190.0, 1, d.height), d.samples[k], i);
      NormalValueInBand(AllMetrics[i], d.bases[i], d.samples[k][i]);
    }
  }

  /** The height column is constant, so its summary is the recorded height itself. */
  lemma HeightSummary(wsum: WindowSummary, daily: seq<DailyRecord>, height: real)
    requires |daily| > 0 && HasMetric(daily, Height) && SummaryAgrees(wsum, daily, Height)
    requires height == ToFixed(height, 1)
    requires forall k :: 0 <= k < |daily| ==> daily[k].values[Height] == height
    ensures wsum.avg[Height] == wsum.min[Height] == wsum.max[Height] == height
  {
    ConstantColumnStats(Column(daily, Height), height, 1);
  }

  /**
   * The records of one data set are those of the drawn dates: the sorted draw
   * of `measurementDays` candidate dates, each measured from its own samples
   * around the drawn baselines, all at the drawn height.
   */
  ghost predicate DrawnWindow(d: NormalDraws, start: Date, dates: seq<Date>, daily: seq<DailyRecord>)
    requires WellDrawn(d)
  {
    && start == StartDateOf(d.year, d.month, d.day)
    && dates == SortByKey(Drawn(CandidateDates(start), MeasurementDays(d.measurementDays), d.datePicks), DateKey)
    && |dates| == |daily| <= 5
    && daily == NormalRecords(dates, NormalBaselines(d.bases), RandomInRange(155.0, 190.0, 1, d.height),
                              d.samples, |dates|)
  }

  /**
   * What the records of one data set look like: one to five of them, dated
   * inside the five-day window in increasing order, all at the drawn height,
   * and every value inside its normal band.
   */
  ghost predicate NormalWindow(d: NormalDraws, start: Date, daily: seq<DailyRecord>)
    requires WellDrawn(d) && ValidDate(start)
  {
    && |daily| == MeasurementDays(d.measurementDays) && 1 <= |daily| <= 5
    && (forall k :: 0 <= k < |daily| ==>
          daily[k].date in CandidateDates(start) && NotAfter(start, daily[k].date)
          && NotAfter(daily[k].date, AddDays(start, 4)))
    && (forall i, j :: 0 <= i < j < |daily| ==> Before(daily[i].date, daily[j].date))
    && (forall k :: 0 <= k < |daily| ==>
          daily[k].values.Keys == RecordKeys && daily[k].values[Height] == RandomInRange(155.0, 190.0, 1, d.height))
    && (forall k, i :: 0 <= k < |daily| && 0 <= i < |AllMetrics| ==>
          WithinNormalBand(AllMetrics[i], daily[k].values[AllMetrics[i]]))
  }

  /** The dates and the records of one data set. */
  method MeasureNormalWindow(d: NormalDraws) returns (start: Date, dates: seq<Date>, daily: seq<DailyRecord>)
    requires WellDrawn(d)
    ensures DrawnWindow(d, start, dates, daily) && NormalWindow(d, start, daily)
  {
    var height := RandomInRange(155.0, 190.0, 1, d.height);
    start := StartDateOf(d.year, d.month, d.day);
    var bases := NormalBaselines(d.bases);
    dates := SelectDates(start, d.measurementDays, d.datePicks);
    daily := MeasureNormalDays(dates, bases, height, d.samples);
    DatesInWindow(dates, start);
    RecordsInBand(d, dates, daily);
  }

  /** The summary over the eleven metrics of records that all carry the same height. */
  method SummarizeNormal(daily: seq<DailyRecord>, height: real) returns (wsum: WindowSummary)
    requires |daily| > 0 && height == ToFixed(height, 1)
    requires forall k :: 0 <= k < |daily| ==> daily[k].values.Keys == RecordKeys && daily[k].values[Height] == height
    ensures forall i :: 0 <= i < |NormalMetrics| ==>
              HasMetric(daily, NormalMetrics[i]) && SummaryAgrees(wsum, daily, NormalMetrics[i])
              && wsum.min[NormalMetrics[i]] <= wsum.avg[NormalMetrics[i]] <= wsum.max[NormalMetrics[i]]
    ensures Height in wsum.avg && Height in wsum.min && Height in wsum.max
    ensures wsum.avg[Height] == wsum.min[Height] == wsum.max[Height] == height
  {
    NormalMetricsAreRecordKeys();
    wsum := ComputeSummary(daily, NormalMetrics);
    HeightIsNormalMetric();
    HeightSummary(wsum, daily, height);
  }

  /** `generateHealthDataSet`. */
  method GenerateHealthDataSet(d: NormalDraws) returns (r: NormalSet, ghost dates: seq<Date>)
    requires WellDrawn(d)
    ensures DrawnWindow(d, r.start, dates, r.daily) && r.end == AddDays(r.start, 4)
    ensures NormalWindow(d, r.start, r.daily)
    ensures forall i :: 0 <= i < |NormalMetrics| ==>
              HasMetric(r.daily, NormalMetrics[i]) && SummaryAgrees(r.wsum, r.daily, NormalMetrics[i])
              && r.wsum.min[NormalMetrics[i]] <= r.wsum.avg[NormalMetrics[i]] <= r.wsum.max[NormalMetrics[i]]
    ensures Height in r.wsum.avg && Height in r.wsum.min && Height in r.wsum.max
    ensures r.wsum.avg[Height] == r.wsum.min[Height] == r.wsum.max[Height] == RandomInRange(155.0, 190.0, 1, d.height)
    ensures r.anomalies == [] && r.comment == AllNormalSentence
    ensures multiset(r.food) <= multiset(d.foods) && (|d.foods| >= 3 ==> |r.food| == 3)
    ensures Distinct(d.foods) ==> Distinct(r.food)
  {
    var height := RandomInRange(155.0, 190.0, 1, d.height);
    var start, drawn, daily := MeasureNormalWindow(d);
    dates := drawn;
    var end := AddDays(start, 4);
    ToFixedIdempotent(d.height * (190.0 - 155.0) + 155.0, 1);
    var wsum := SummarizeNormal(daily, height);
    var food := FoodRecommendations(d.foods, d.shuffledFoods);
    FoodRecommendationsFromPool(d.foods, d.shuffledFoods);
    r := NormalSet(start, end, daily, wsum, [], AllNormalSentence, food);
  }
}
