/**
 * `generateHealthTrendAnalysis`: the abnormal-data pipeline. It draws a
 * five-day window and personal baselines, picks one to three metrics and a
 * pattern for each, measures three to five days (sampling every metric around
 * its baseline and injecting the pattern into the picked ones), summarises
 * the window, runs the point and variability passes, falls back to the
 * largest deviation or a heart-rate placeholder when nothing was found, caps
 * the list at five, and writes the narrative.
 */
module TrendAnalysis {
  import opened Wrappers
  import opened Numeric
  import opened Text
  import opened Calendar
  import opened Catalog
  import opened Injector
  import opened Sampling
  import opened Selection
  import opened Summary
  import opened Anomalies
  import opened Detection

  /** The `randomInRange(lo, hi, decimals)` call that draws a personal baseline. */
  datatype BaseRange = BaseRange(lo: real, hi: real, decimals: nat)

  function BaselineRange(m: string): (r: BaseRange)
    requires IsMetric(m)
    ensures r.lo < r.hi && r.decimals <= 2
  {
    match m
    case "bf" => BaseRange(18.0, 35.0, 2)
    case "mm" => BaseRange(35.0, 55.0, 2)
    case "bw" => BaseRange(45.0, 65.0, 2)
    case "prot" => BaseRange(15.0, 22.0, 2)
    case "min" => BaseRange(3.5, 6.0, 2)
    case "wt" => BaseRange(50.0, 85.0, 1)
    case "hr" => BaseRange(55.0, 95.0, 1)
    case "o2" => BaseRange(94.0, 99.0, 1)
    case "sys" => BaseRange(100.0, 145.0, 1)
    case "dia" => BaseRange(65.0, 95.0, 1)
  }

  function Baseline(m: string, u: real): real
    requires IsMetric(m)
  {
    var r := BaselineRange(m);
    RandomInRange(r.lo, r.hi, r.decimals, u)
  }

  /** The day's first value of a metric: within one normal variation of the baseline, whole for vitals. */
  function Sample(m: string, base: real, u: real): real
    requires IsMetric(m)
  {
    var nv := NormalVariation(m).value;
    var v := RandomInRange(base - nv, base + nv, SummaryDecimals(m), u);
    if IsWholeMetric(m) then RoundHalfUp(v, 0) else v
  }

  /** The injector applied to a picked metric; vitals are rounded again. */
  function Inject(m: string, v: real, dayIndex: nat, total: nat, pattern: int, draws: seq<real>, sine: real): real
    requires IsMetric(m) && total > 0 && |draws| >= 3
  {
    var r := GenerateRealisticAnomaly(m, v, dayIndex, total, pattern, draws, sine).value;
    if IsWholeMetric(m) then RoundHalfUp(r, 0) else r
  }

  /** The closing `toFixed`/`Math.round` that fixes each value's decimals. */
  function Normalize(m: string, v: real): real {
    if IsWholeMetric(m) then RoundHalfUp(v, 0) else ToFixed(v, SummaryDecimals(m))
  }

  predicate PatternInputs(selected: seq<string>, patterns: seq<int>, injections: seq<seq<real>>) {
    && |patterns| >= |selected| && |injections| >= |selected|
    && (forall j :: 0 <= j < |selected| ==> IsMetric(selected[j]))
    && (forall j :: 0 <= j < |injections| ==> |injections[j]| >= 3)
  }

  /**
   * The value after the pattern step: the injected value for a picked metric
   * (the pattern and draws of its position among the picked ones), the
   * sampled value otherwise.
   */
  function Injected(m: string, sampled: real, selected: seq<string>, patterns: seq<int>, injections: seq<seq<real>>,
                    dayIndex: nat, total: nat, sine: real): real
    requires IsMetric(m) && total > 0 && PatternInputs(selected, patterns, injections)
  {
    if m in selected then
      var j := FirstIndex(selected, m);
      Inject(m, sampled, dayIndex, total, patterns[j], injections[j], sine)
    else sampled
  }

  /** The recorded value of the i-th metric of `AllMetrics` on one day. */
  function DayValue(i: nat, bases: seq<real>, samples: seq<real>, selected: seq<string>, patterns: seq<int>,
                    injections: seq<seq<real>>, dayIndex: nat, total: nat, sine: real): real
    requires i < |AllMetrics| && |bases| == |samples| == |AllMetrics|
    requires total > 0 && PatternInputs(selected, patterns, injections)
  {
    var m := AllMetrics[i];
    Normalize(m, Injected(m, Sample(m, bases[i], samples[i]), selected, patterns, injections, dayIndex, total, sine))
  }

  lemma InjectedSnoc(m: string, sampled: real, selected: seq<string>, j: nat, patterns: seq<int>, injections: seq<seq<real>>,
                     dayIndex: nat, total: nat, sine: real)
    requires IsMetric(m) && total > 0 && PatternInputs(selected, patterns, injections)
    requires Distinct(selected) && j < |selected|
    ensures PatternInputs(selected[..j], patterns, injections) && PatternInputs(selected[..j + 1], patterns, injections)
    ensures m == selected[j] ==>
              Injected(m, sampled, selected[..j], patterns, injections, dayIndex, total, sine) == sampled
              && Injected(m, sampled, selected[..j + 1], patterns, injections, dayIndex, total, sine)
                 == Inject(m, sampled, dayIndex, total, patterns[j], injections[j], sine)
    ensures m != selected[j] ==>
              Injected(m, sampled, selected[..j + 1], patterns, injections, dayIndex, total, sine)
              == Injected(m, sampled, selected[..j], patterns, injections, dayIndex, total, sine)
  {
    var p, q := selected[..j], selected[..j + 1];
    assert q == p + [selected[j]];
    if m == selected[j] {
      assert m !in p;
      assert FirstIndex(q, m) == j;
    } else if m in p {
      FirstIndexInPrefix(q, j, m);
      assert q[..j] == p;
    }
  }

  /** The ten `randomInRange` samples of one day, in `AllMetrics` order. */
  method SampleAll(bases: seq<real>, samples: seq<real>) returns (vals: seq<real>)
    requires |bases| == |samples| == |AllMetrics|
    ensures |vals| == |AllMetrics|
    ensures forall k :: 0 <= k < |AllMetrics| ==> vals[k] == Sample(AllMetrics[k], bases[k], samples[k])
  {
    vals := [];
    for i := 0 to |AllMetrics|
      invariant |vals| == i
      invariant forall k :: 0 <= k < i ==> vals[k] == Sample(AllMetrics[k], bases[k], samples[k])
    {
      vals := vals + [Sample(AllMetrics[i], bases[i], samples[i])];
    }
  }

  /** The invariant of the loop over the picked metrics, after the first `j` of them. */
  predicate InjectedUpTo(vals: seq<real>, keys: seq<string>, sampled: seq<real>, selected: seq<string>, j: nat,
                         patterns: seq<int>, injections: seq<seq<real>>, dayIndex: nat, total: nat, sine: real)
    requires |vals| == |keys| == |sampled| && (forall k :: 0 <= k < |keys| ==> IsMetric(keys[k]))
    requires total > 0 && PatternInputs(selected, patterns, injections) && j <= |selected|
  {
    assert PatternInputs(selected[..j], patterns, injections);
    forall k :: 0 <= k < |keys| ==>
      vals[k] == Injected(keys[k], sampled[k], selected[..j], patterns, injections, dayIndex, total, sine)
  }

  /** Injecting the j-th picked metric at its own position extends the invariant to j + 1. */
  lemma InjectStep(vals: seq<real>, keys: seq<string>, sampled: seq<real>, selected: seq<string>, j: nat,
                   patterns: seq<int>, injections: seq<seq<real>>, dayIndex: nat, total: nat, sine: real, i: nat)
    requires |vals| == |keys| == |sampled| && (forall k :: 0 <= k < |keys| ==> IsMetric(keys[k])) && Distinct(keys)
    requires total > 0 && PatternInputs(selected, patterns, injections) && Distinct(selected) && j < |selected|
    requires i < |keys| && keys[i] == selected[j]
    requires InjectedUpTo(vals, keys, sampled, selected, j, patterns, injections, dayIndex, total, sine)
    ensures InjectedUpTo(vals[i := Inject(selected[j], vals[i], dayIndex, total, patterns[j], injections[j], sine)],
                         keys, sampled, selected, j + 1, patterns, injections, dayIndex, total, sine)
  {
    var next := vals[i := Inject(selected[j], vals[i], dayIndex, total, patterns[j], injections[j], sine)];
    forall k | 0 <= k < |keys|
      ensures next[k] == Injected(keys[k], sampled[k], selected[..j + 1], patterns, injections, dayIndex, total, sine)
    {
      InjectedSnoc(keys[k], sampled[k], selected, j, patterns, injections, dayIndex, total, sine);
      if k != i {
        assert keys[k] != selected[j];
      }
    }
  }

  /** The loop over the picked metrics: each one's value is replaced by the injector's result. */
  method InjectPicked(sampled: seq<real>, selected: seq<string>, patterns: seq<int>, injections: seq<seq<real>>,
                      dayIndex: nat, total: nat, sine: real) returns (vals: seq<real>)
    requires |sampled| == |AllMetrics|
    requires total > 0 && PatternInputs(selected, patterns, injections) && Distinct(selected)
    ensures |vals| == |AllMetrics|
    ensures forall k :: 0 <= k < |AllMetrics| ==>
              vals[k] == Injected(AllMetrics[k], sampled[k], selected, patterns, injections, dayIndex, total, sine)
  {
    var keys := AllMetrics;
    AllMetricsDistinct();
    vals := sampled;
    assert selected[..0] == [];
    for j := 0 to |selected|
      invariant |vals| == |keys|
      invariant InjectedUpTo(vals, keys, sampled, selected, j, patterns, injections, dayIndex, total, sine)
    {
      var i := FirstIndex(keys, selected[j]);
      InjectStep(vals, keys, sampled, selected, j, patterns, injections, dayIndex, total, sine, i);
      vals := vals[i := Inject(selected[j], vals[i], dayIndex, total, patterns[j], injections[j], sine)];
    }
    assert selected[..|selected|] == selected;
  }

  /** The closing pass that fixes every value's decimals. */
  method NormalizeAll(injected: seq<real>) returns (vals: seq<real>)
    requires |injected| == |AllMetrics|
    ensures |vals| == |AllMetrics|
    ensures forall k :: 0 <= k < |AllMetrics| ==> vals[k] == Normalize(AllMetrics[k], injected[k])
  {
    vals := injected;
    for i := 0 to |AllMetrics|
      invariant |vals| == |AllMetrics|
      invariant forall k :: 0 <= k < i ==> vals[k] == Normalize(AllMetrics[k], injected[k])
      invariant forall k :: i <= k < |AllMetrics| ==> vals[k] == injected[k]
    {
      vals := vals[i := Normalize(AllMetrics[i], vals[i])];
    }
  }

  /** The day's record `{ bf, mm, …, ht: height, … }`. */
  method RecordValues(vals: seq<real>, height: real) returns (values: map<string, real>)
    requires |vals| == |AllMetrics|
    ensures values.Keys == (set i | 0 <= i < |AllMetrics| :: AllMetrics[i]) + {Height}
    ensures forall i :: 0 <= i < |AllMetrics| ==> values[AllMetrics[i]] == vals[i]
    ensures values[Height] == height
  {
    AllMetricsDistinct();
    values := map[Height := height];
    for i := 0 to |AllMetrics|
      invariant values.Keys == (set k | 0 <= k < i :: AllMetrics[k]) + {Height}
      invariant forall k :: 0 <= k < i ==> values[AllMetrics[k]] == vals[k]
      invariant values[Height] == height
    {
      values := values[AllMetrics[i] := vals[i]];
    }
  }

  /**
   * One iteration of the day loop: sample all ten metrics, inject the pattern
   * of each picked metric, then fix every value's decimals; height is the
   * same every day.
   */
  method MeasureDay(bases: seq<real>, height: real, selected: seq<string>, patterns: seq<int>,
                    injections: seq<seq<real>>, dayIndex: nat, total: nat, samples: seq<real>, sine: real)
    returns (values: map<string, real>)
    requires |bases| == |samples| == |AllMetrics|
    requires total > 0 && PatternInputs(selected, patterns, injections) && Distinct(selected)
    ensures values.Keys == (set i | 0 <= i < |AllMetrics| :: AllMetrics[i]) + {Height}
    ensures forall i :: 0 <= i < |AllMetrics| ==>
              values[AllMetrics[i]] == DayValue(i, bases, samples, selected, patterns, injections, dayIndex, total, sine)
    ensures values[Height] == height
  {
    var sampled := SampleAll(bases, samples);
    var injected := InjectPicked(sampled, selected, patterns, injections, dayIndex, total, sine);
    var normalized := NormalizeAll(injected);
    values := RecordValues(normalized, height);
  }

  /** The rounding error the three steps of a day can add: two roundings to the record's decimals, the injector's, and the vitals' extra `Math.round`s. */
  function RoundingSlack(m: string): real {
    2.0 * HalfUnit(SummaryDecimals(m)) + HalfUnit(2) + if IsWholeMetric(m) then 1.0 else 0.0
  }

  lemma SampleNear(m: string, base: real, u: real)
    requires IsMetric(m) && IsDraw(u)
    ensures Abs(Sample(m, base, u) - base)
              <= NormalVariation(m).value + HalfUnit(SummaryDecimals(m)) + if IsWholeMetric(m) then 0.5 else 0.0
  {
    var nv := NormalVariation(m).value;
    var v := RandomInRange(base - nv, base + nv, SummaryDecimals(m), u);
    RandomInRangeBounds(base - nv, base + nv, SummaryDecimals(m), u);
    if IsWholeMetric(m) {
      RoundHalfUpClose(v, 0);
      assert HalfUnit(0) == 0.5;
    }
  }

  lemma InjectNear(m: string, v: real, dayIndex: nat, total: nat, pattern: int, draws: seq<real>, sine: real)
    requires IsMetric(m) && dayIndex < total <= 5 && ValidDraws(draws) && -1.0 <= sine <= 1.0
    ensures Abs(Inject(m, v, dayIndex, total, pattern, draws, sine) - v)
              <= 2.0 * NormalVariation(m).value + HalfUnit(2) + if IsWholeMetric(m) then 0.5 else 0.0
  {
    InjectionBounded(m, v, dayIndex, total, pattern, draws, sine);
    if IsWholeMetric(m) {
      RoundHalfUpClose(GenerateRealisticAnomaly(m, v, dayIndex, total, pattern, draws, sine).value, 0);
      assert HalfUnit(0) == 0.5;
    }
  }

  lemma NormalizeNear(m: string, v: real)
    ensures Abs(Normalize(m, v) - v) <= HalfUnit(SummaryDecimals(m))
  {
    if IsWholeMetric(m) {
      RoundHalfUpClose(v, 0);
    } else {
      ToFixedClose(v, SummaryDecimals(m));
    }
  }

  ghost predicate DrawnInjections(injections: seq<seq<real>>) {
    forall j :: 0 <= j < |injections| ==> ValidDraws(injections[j])
  }

  /**
   * A recorded value stays within three normal variations of the personal
   * baseline, up to rounding: one from the sample, at most two from the
   * injected pattern.
   */
  lemma DayValueNearBaseline(i: nat, bases: seq<real>, samples: seq<real>, selected: seq<string>, patterns: seq<int>,
                             injections: seq<seq<real>>, dayIndex: nat, total: nat, sine: real)
    requires i < |AllMetrics| && |bases| == |samples| == |AllMetrics| && IsDraw(samples[i])
    requires dayIndex < total <= 5 && PatternInputs(selected, patterns, injections) && DrawnInjections(injections)
    requires -1.0 <= sine <= 1.0
    ensures Abs(DayValue(i, bases, samples, selected, patterns, injections, dayIndex, total, sine) - bases[i])
              <= 3.0 * NormalVariation(AllMetrics[i]).value + RoundingSlack(AllMetrics[i])
  {
    var m := AllMetrics[i];
    var sampled := Sample(m, bases[i], samples[i]);
    SampleNear(m, bases[i], samples[i]);
    var injected := Injected(m, sampled, selected, patterns, injections, dayIndex, total, sine);
    if m in selected {
      var j := FirstIndex(selected, m);
      InjectNear(m, sampled, dayIndex, total, patterns[j], injections[j], sine);
    }
    NormalizeNear(m, injected);
  }

  /** For every metric the lowest baseline is far enough from zero to absorb the largest drift. */
  lemma BaselineClearsDrift(m: string)
    requires IsMetric(m)
    ensures BaselineRange(m).lo - HalfUnit(BaselineRange(m).decimals)
              - 3.0 * NormalVariation(m).value - RoundingSlack(m) >= 0.5
  {
    assert Pow10(1) == 10.0 && Pow10(2) == 100.0;
    assert HalfUnit(0) == 0.5 && HalfUnit(1) == 0.05 && HalfUnit(2) == 0.005;
  }

  lemma BaselineBounds(m: string, u: real)
    requires IsMetric(m) && IsDraw(u)
    ensures BaselineRange(m).lo - HalfUnit(BaselineRange(m).decimals) <= Baseline(m, u)
    ensures Baseline(m, u) <= BaselineRange(m).hi + HalfUnit(BaselineRange(m).decimals)
  {
    var r := BaselineRange(m);
    RandomInRangeBounds(r.lo, r.hi, r.decimals, u);
  }

  /** Every recorded value is at least one half, so every average the pipeline divides by is positive. */
  lemma DayValuePositive(i: nat, bases: seq<real>, samples: seq<real>, selected: seq<string>, patterns: seq<int>,
                         injections: seq<seq<real>>, dayIndex: nat, total: nat, sine: real, u: real)
    requires i < |AllMetrics| && |bases| == |samples| == |AllMetrics| && IsDraw(samples[i])
    requires IsDraw(u) && bases[i] == Baseline(AllMetrics[i], u)
    requires dayIndex < total <= 5 && PatternInputs(selected, patterns, injections) && DrawnInjections(injections)
    requires -1.0 <= sine <= 1.0
    ensures DayValue(i, bases, samples, selected, patterns, injections, dayIndex, total, sine) >= 0.5
  {
    DayValueNearBaseline(i, bases, samples, selected, patterns, injections, dayIndex, total, sine);
    BaselineBounds(AllMetrics[i], u);
    BaselineClearsDrift(AllMetrics[i]);
  }

  /** `metricTimeSeries[m]`: one point per record, numbered by its day offset plus one. */
  function SeriesOf(daily: seq<DailyRecord>, days: seq<int>, m: string): (pts: seq<SeriesPoint>)
    requires |days| >= |daily| && HasMetric(daily, m)
    ensures |pts| == |daily|
  {
    seq(|daily|, k requires 0 <= k < |daily| => SeriesPoint(days[k] + 1, daily[k].values[m], daily[k].date))
  }

  /** Every metric's series in `next` is the one in `series` with the day's point pushed. */
  predicate Appended(series: map<string, seq<SeriesPoint>>, next: map<string, seq<SeriesPoint>>,
                     values: map<string, real>, dayNumber: int, date: Date)
  {
    forall i :: 0 <= i < |AllMetrics| ==>
      && AllMetrics[i] in series && AllMetrics[i] in values && AllMetrics[i] in next
      && next[AllMetrics[i]] == series[AllMetrics[i]] + [SeriesPoint(dayNumber, values[AllMetrics[i]], date)]
  }

  /** Pushes one point onto the series of each of the ten metrics. */
  method AppendDay(series: map<string, seq<SeriesPoint>>, values: map<string, real>, dayNumber: int, date: Date)
    returns (next: map<string, seq<SeriesPoint>>)
    requires forall i :: 0 <= i < |AllMetrics| ==> AllMetrics[i] in series && AllMetrics[i] in values
    ensures Appended(series, next, values, dayNumber, date)
  {
    AllMetricsDistinct();
    next := series;
    for i := 0 to |AllMetrics|
      invariant forall k :: 0 <= k < |AllMetrics| ==> AllMetrics[k] in next
      invariant forall k :: 0 <= k < i ==>
                  next[AllMetrics[k]] == series[AllMetrics[k]] + [SeriesPoint(dayNumber, values[AllMetrics[k]], date)]
      invariant forall k :: i <= k < |AllMetrics| ==> next[AllMetrics[k]] == series[AllMetrics[k]]
    {
      var m := AllMetrics[i];
      next := next[m := next[m] + [SeriesPoint(dayNumber, values[m], date)]];
    }
  }

  predicate StrictlyIncreasing(days: seq<int>) {
    forall i, j :: 0 <= i < j < |days| ==> days[i] < days[j]
  }

  /** `selectedDays.indexOf(dayOffset)`: on sorted distinct days, the position itself. */
  lemma IndexOfSortedDay(days: seq<int>, k: nat)
    requires StrictlyIncreasing(days) && k < |days|
    ensures FirstIndex(days, days[k]) == k
  {
    var f := FirstIndex(days, days[k]);
    if f < k {
      assert false;
    } else if f > k {
      assert false;
    }
  }

  /** Everything the day loop reads: the window start, the sorted day offsets, the draws of each day. */
  datatype DayPlan = DayPlan(start: Date, days: seq<int>, bases: seq<real>, height: real, selected: seq<string>,
                             patterns: seq<int>, samples: seq<seq<real>>, injections: seq<seq<seq<real>>>, sines: seq<real>)

  ghost predicate ValidPlan(p: DayPlan) {
    && ValidDate(p.start) && StrictlyIncreasing(p.days) && |p.days| <= 5
    && (forall k :: 0 <= k < |p.days| ==> 0 <= p.days[k])
    && |p.bases| == |AllMetrics| && Distinct(p.selected)
    && |p.samples| >= |p.days| && |p.injections| >= |p.days| && |p.sines| >= |p.days|
    && (forall k :: 0 <= k < |p.days| ==> |p.samples[k]| == |AllMetrics|)
    && (forall k :: 0 <= k < |p.days| ==> PatternInputs(p.selected, p.patterns, p.injections[k]))
  }

  /** The keys of every record: the ten metrics and height. */
  const RecordKeys: set<string> := (set i | 0 <= i < |AllMetrics| :: AllMetrics[i]) + {Height}

  lemma RecordKeysAreMetrics(m: string)
    requires m in RecordKeys && m != Height
    ensures m in AllMetrics
  {
  }

  /** The map with the given keys whose value at each key is `f` of it. */
  function MapOver<K, V>(keys: set<K>, f: K --> V): (r: map<K, V>)
    requires forall x :: x in keys ==> f.requires(x)
    ensures r.Keys == keys
    ensures forall x :: x in keys ==> r[x] == f(x)
  {
    map x | x in keys :: f(x)
  }

  lemma MapOverAgrees<K, V>(keys: set<K>, f: K --> V, values: map<K, V>)
    requires forall x :: x in keys ==> f.requires(x)
    requires values.Keys == keys && forall x :: x in keys ==> values[x] == f(x)
    ensures values == MapOver(keys, f)
  {
  }

  /** One entry of the k-th record: the metric's `DayValue`, or the height. */
  function DayEntry(p: DayPlan, k: nat): string --> real
    requires ValidPlan(p) && k < |p.days|
  {
    m requires m in RecordKeys =>
      if m == Height then p.height
      else DayValue(FirstIndex(AllMetrics, m), p.bases, p.samples[k], p.selected, p.patterns, p.injections[k], k,
                    |p.days|, p.sines[k])
  }

  /** The values of the k-th record: each metric's `DayValue`, and the height. */
  function DayValues(p: DayPlan, k: nat): (values: map<string, real>)
    requires ValidPlan(p) && k < |p.days|
    ensures values.Keys == RecordKeys
  {
    MapOver(RecordKeys, DayEntry(p, k))
  }

  /** The k-th record of the day loop, dated its day offset after the start. */
  function DayRecord(p: DayPlan, k: nat): (r: DailyRecord)
    requires ValidPlan(p) && k < |p.days|
    ensures r.values.Keys == RecordKeys && r.date == AddDays(p.start, p.days[k])
  {
    DailyRecord(DayValues(p, k), AddDays(p.start, p.days[k]))
  }

  lemma DayRecordValue(p: DayPlan, k: nat, i: nat)
    requires ValidPlan(p) && k < |p.days| && i < |AllMetrics|
    ensures AllMetrics[i] in DayRecord(p, k).values
    ensures DayRecord(p, k).values[AllMetrics[i]]
              == DayValue(i, p.bases, p.samples[k], p.selected, p.patterns, p.injections[k], k, |p.days|, p.sines[k])
  {
    AllMetricsDistinct();
    assert AllMetrics[i] in RecordKeys;
    assert FirstIndex(AllMetrics, AllMetrics[i]) == i;
  }

  /** A map with the keys and per-metric values `MeasureDay` promises is the k-th record's values. */
  lemma DayValuesAgree(p: DayPlan, k: nat, values: map<string, real>)
    requires ValidPlan(p) && k < |p.days|
    requires values.Keys == RecordKeys && values[Height] == p.height
    requires forall i :: 0 <= i < |AllMetrics| ==>
               values[AllMetrics[i]]
                 == DayValue(i, p.bases, p.samples[k], p.selected, p.patterns, p.injections[k], k, |p.days|, p.sines[k])
    ensures values == DayValues(p, k)
  {
    forall m | m in RecordKeys
      ensures values[m] == DayEntry(p, k)(m)
    {
      if m != Height {
        RecordKeysAreMetrics(m);
        DayRecordValue(p, k, FirstIndex(AllMetrics, m));
      }
    }
    MapOverAgrees(RecordKeys, DayEntry(p, k), values);
  }

  /** The body of the day loop for the k-th selected day. */
  method MeasureRecord(p: DayPlan, k: nat) returns (record: DailyRecord)
    requires ValidPlan(p) && k < |p.days|
    ensures record == DayRecord(p, k)
  {
    var dayOffset := p.days[k];
    var date := AddDays(p.start, dayOffset);
    var dayIndex := FirstIndex(p.days, dayOffset);
    IndexOfSortedDay(p.days, k);
    var values := MeasureDay(p.bases, p.height, p.selected, p.patterns, p.injections[k], dayIndex, |p.days|,
                             p.samples[k], p.sines[dayIndex]);
    DayValuesAgree(p, k, values);
    record := DailyRecord(values, date);
  }

  /** The records the day loop produces, one per selected day. */
  function DayRecords(p: DayPlan, n: nat): (daily: seq<DailyRecord>)
    requires ValidPlan(p) && n <= |p.days|
    ensures |daily| == n
    ensures forall k :: 0 <= k < n ==> daily[k] == DayRecord(p, k)
  {
    seq(n, k requires 0 <= k < n => DayRecord(p, k))
  }

  lemma DayRecordsSnoc(p: DayPlan, n: nat)
    requires ValidPlan(p) && n < |p.days|
    ensures DayRecords(p, n + 1) == DayRecords(p, n) + [DayRecord(p, n)]
  {
    var a, b := DayRecords(p, n + 1), DayRecords(p, n);
    forall k | 0 <= k < n ensures a[k] == b[k] {
      assert a[k] == DayRecord(p, k);
    }
    SnocFromElements(a, b, DayRecord(p, n));
  }

  /** Every metric's series holds one point per record so far. */
  ghost predicate SeriesMatch(series: map<string, seq<SeriesPoint>>, daily: seq<DailyRecord>, days: seq<int>)
    requires |days| >= |daily|
  {
    forall i :: 0 <= i < |AllMetrics| ==>
      HasMetric(daily, AllMetrics[i]) && AllMetrics[i] in series && series[AllMetrics[i]] == SeriesOf(daily, days, AllMetrics[i])
  }

  /** `metricTimeSeries` before the loop: an empty series per metric. */
  function EmptySeries(): (series: map<string, seq<SeriesPoint>>)
    ensures SeriesMatch(series, [], [])
  {
    map m | m in AllMetrics :: []
  }

  lemma DayRecordHasMetrics(p: DayPlan, k: nat)
    requires ValidPlan(p) && k < |p.days|
    ensures forall i :: 0 <= i < |AllMetrics| ==> AllMetrics[i] in DayRecord(p, k).values
  {
    forall i | 0 <= i < |AllMetrics|
      ensures AllMetrics[i] in DayRecord(p, k).values
    {
      DayRecordValue(p, k, i);
    }
  }

  lemma SeriesMatchStep(series: map<string, seq<SeriesPoint>>, next: map<string, seq<SeriesPoint>>,
                        daily: seq<DailyRecord>, days: seq<int>, k: nat, record: DailyRecord)
    requires |daily| == k < |days| && SeriesMatch(series, daily, days)
    requires Appended(series, next, record.values, days[k] + 1, record.date)
    ensures SeriesMatch(next, daily + [record], days)
  {
    var d := daily + [record];
    forall i | 0 <= i < |AllMetrics|
      ensures HasMetric(d, AllMetrics[i]) && next[AllMetrics[i]] == SeriesOf(d, days, AllMetrics[i])
    {
      var m := AllMetrics[i];
      assert HasMetric(d, m);
      assert SeriesOf(d, days, m) == SeriesOf(daily, days, m) + [SeriesPoint(days[|daily|] + 1, record.values[m], record.date)];
    }
  }

  /** The invariant of the day loop after k days: the records so far, and their series. */
  ghost predicate DayLoop(p: DayPlan, k: nat, daily: seq<DailyRecord>, series: map<string, seq<SeriesPoint>>)
    requires ValidPlan(p) && k <= |p.days|
  {
    daily == DayRecords(p, k) && SeriesMatch(series, daily, p.days)
  }

  /** Before the k-th push, every metric has a series and a value in the day's record. */
  lemma DayLoopReady(p: DayPlan, k: nat, daily: seq<DailyRecord>, series: map<string, seq<SeriesPoint>>)
    requires ValidPlan(p) && k < |p.days| && DayLoop(p, k, daily, series)
    ensures forall i :: 0 <= i < |AllMetrics| ==> AllMetrics[i] in series && AllMetrics[i] in DayRecord(p, k).values
  {
    DayRecordHasMetrics(p, k);
  }

  lemma DayLoopStep(p: DayPlan, k: nat, daily: seq<DailyRecord>, series: map<string, seq<SeriesPoint>>,
                    record: DailyRecord, next: map<string, seq<SeriesPoint>>)
    requires ValidPlan(p) && k < |p.days| && DayLoop(p, k, daily, series) && record == DayRecord(p, k)
    requires Appended(series, next, record.values, p.days[k] + 1, record.date)
    ensures DayLoop(p, k + 1, daily + [record], next)
  {
    SeriesMatchStep(series, next, daily, p.days, k, record);
    DayRecordsSnoc(p, k);
  }

  /**
   * The day loop: one record per selected day offset, dated that many days
   * after the start, and one point per metric pushed onto its series.
   */
  method MeasureDays(p: DayPlan) returns (daily: seq<DailyRecord>, series: map<string, seq<SeriesPoint>>)
    requires ValidPlan(p)
    ensures daily == DayRecords(p, |p.days|)
    ensures SeriesMatch(series, daily, p.days)
  {
    daily := [];
    series := EmptySeries();
    for k := 0 to |p.days|
      invariant DayLoop(p, k, daily, series)
    {
      var record := MeasureRecord(p, k);
      DayLoopReady(p, k, daily, series);
      var next := AppendDay(series, record.values, p.days[k] + 1, record.date);
      DayLoopStep(p, k, daily, series, record, next);
      series := next;
      daily := daily + [record];
    }
  }
}
