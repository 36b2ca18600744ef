/**
 * The daily records both generators produce, and the window summary `wsum`:
 * per metric, the average, minimum and maximum of its daily values, each
 * rounded with `toFixed` to the metric's number of decimals.
 */
module Summary {
  import opened Numeric
  import opened Calendar
  import opened Catalog

  /** One day's measurements (`{ bf, mm, …, ht, …, d }`), keyed by metric code. */
  datatype DailyRecord = DailyRecord(values: map<string, real>, date: Date)

  /** `wsum`: three objects keyed by metric code. */
  datatype WindowSummary = WindowSummary(avg: map<string, real>, min: map<string, real>, max: map<string, real>)

  predicate HasMetric(daily: seq<DailyRecord>, m: string) {
    forall k :: 0 <= k < |daily| ==> m in daily[k].values
  }

  /** `dailyData.map(day => day[metric])`. */
  function Column(daily: seq<DailyRecord>, m: string): (col: seq<real>)
    requires HasMetric(daily, m)
    ensures |col| == |daily|
    ensures forall k :: 0 <= k < |daily| ==> col[k] == daily[k].values[m]
  {
    seq(|daily|, k requires 0 <= k < |daily| => daily[k].values[m])
  }

  datatype Stats = Stats(avg: real, min: real, max: real)

  /** The three rounded statistics of one column. */
  function ColumnStats(col: seq<real>, decimals: nat): Stats
    requires |col| > 0
  {
    Stats(ToFixed(Mean(col), decimals), ToFixed(SeqMin(col), decimals), ToFixed(SeqMax(col), decimals))
  }

  /** Rounding never reorders the three: min ≤ avg ≤ max after `toFixed`. */
  lemma ColumnStatsOrdered(col: seq<real>, decimals: nat)
    requires |col| > 0
    ensures ColumnStats(col, decimals).min <= ColumnStats(col, decimals).avg <= ColumnStats(col, decimals).max
  {
    MeanBetweenMinMax(col);
    ToFixedMonotone(SeqMin(col), Mean(col), decimals);
    ToFixedMonotone(Mean(col), SeqMax(col), decimals);
  }

  /** A metric that is the same on every day (the height) has avg = min = max. */
  lemma ConstantColumnStats(col: seq<real>, c: real, decimals: nat)
    requires |col| > 0
    requires forall k :: 0 <= k < |col| ==> col[k] == c
    ensures ColumnStats(col, decimals) == Stats(ToFixed(c, decimals), ToFixed(c, decimals), ToFixed(c, decimals))
  {
    ConstantSeries(col, c);
    assert SeqMin(col) in col && SeqMax(col) in col;
  }

  predicate SummaryAgrees(wsum: WindowSummary, daily: seq<DailyRecord>, m: string)
    requires |daily| > 0 && HasMetric(daily, m)
  {
    var st := ColumnStats(Column(daily, m), SummaryDecimals(m));
    && m in wsum.avg && m in wsum.min && m in wsum.max
    && wsum.avg[m] == st.avg && wsum.min[m] == st.min && wsum.max[m] == st.max
  }

  lemma AgreesOrdered(wsum: WindowSummary, daily: seq<DailyRecord>, m: string)
    requires |daily| > 0 && HasMetric(daily, m) && SummaryAgrees(wsum, daily, m)
    ensures wsum.min[m] <= wsum.avg[m] <= wsum.max[m]
  {
    ColumnStatsOrdered(Column(daily, m), SummaryDecimals(m));
  }

  /** Storing one metric's statistics keeps every other metric's entries and sets its own. */
  lemma AgreesAfterUpdate(wsum: WindowSummary, daily: seq<DailyRecord>, m: string, st: Stats, x: string)
    requires |daily| > 0 && HasMetric(daily, m) && HasMetric(daily, x)
    requires st == ColumnStats(Column(daily, m), SummaryDecimals(m))
    requires x != m ==> SummaryAgrees(wsum, daily, x)
    ensures SummaryAgrees(WindowSummary(wsum.avg[m := st.avg], wsum.min[m := st.min], wsum.max[m := st.max]), daily, x)
  {
  }

  /** The three maps of `wsum` have exactly the first n metrics as keys. */
  predicate KeysUpTo(wsum: WindowSummary, metrics: seq<string>, n: nat)
    requires n <= |metrics|
  {
    wsum.avg.Keys == wsum.min.Keys == wsum.max.Keys == (set i | 0 <= i < n :: metrics[i])
  }

  /** The first n metrics have their statistics stored in `wsum`. */
  predicate AgreesUpTo(wsum: WindowSummary, daily: seq<DailyRecord>, metrics: seq<string>, n: nat)
    requires |daily| > 0 && n <= |metrics|
    requires forall i :: 0 <= i < |metrics| ==> HasMetric(daily, metrics[i])
  {
    forall i :: 0 <= i < n ==> SummaryAgrees(wsum, daily, metrics[i])
  }

  /** The loop invariant of the `forEach`: the first n metrics are summarised, and only they. */
  predicate SummarisedUpTo(wsum: WindowSummary, daily: seq<DailyRecord>, metrics: seq<string>, n: nat)
    requires |daily| > 0 && n <= |metrics|
    requires forall i :: 0 <= i < |metrics| ==> HasMetric(daily, metrics[i])
  {
    KeysUpTo(wsum, metrics, n) && AgreesUpTo(wsum, daily, metrics, n)
  }

  lemma KeysStep(wsum: WindowSummary, metrics: seq<string>, n: nat, st: Stats)
    requires n < |metrics| && KeysUpTo(wsum, metrics, n)
    ensures var m := metrics[n];
            KeysUpTo(WindowSummary(wsum.avg[m := st.avg], wsum.min[m := st.min], wsum.max[m := st.max]), metrics, n + 1)
  {
    PrefixElementsStep(metrics, n);
  }

  lemma AgreesStep(wsum: WindowSummary, daily: seq<DailyRecord>, metrics: seq<string>, n: nat, st: Stats)
    requires |daily| > 0 && n < |metrics|
    requires forall i :: 0 <= i < |metrics| ==> HasMetric(daily, metrics[i])
    requires AgreesUpTo(wsum, daily, metrics, n)
    requires st == ColumnStats(Column(daily, metrics[n]), SummaryDecimals(metrics[n]))
    ensures var m := metrics[n];
            AgreesUpTo(WindowSummary(wsum.avg[m := st.avg], wsum.min[m := st.min], wsum.max[m := st.max]), daily, metrics, n + 1)
  {
    var m := metrics[n];
    var next := WindowSummary(wsum.avg[m := st.avg], wsum.min[m := st.min], wsum.max[m := st.max]);
    forall i | 0 <= i < n + 1 ensures SummaryAgrees(next, daily, metrics[i]) {
      AgreesAfterUpdate(wsum, daily, m, st, metrics[i]);
    }
  }

  lemma SummaryStep(wsum: WindowSummary, daily: seq<DailyRecord>, metrics: seq<string>, n: nat, st: Stats)
    requires |daily| > 0 && n < |metrics|
    requires forall i :: 0 <= i < |metrics| ==> HasMetric(daily, metrics[i])
    requires SummarisedUpTo(wsum, daily, metrics, n)
    requires st == ColumnStats(Column(daily, metrics[n]), SummaryDecimals(metrics[n]))
    ensures var m := metrics[n];
            SummarisedUpTo(WindowSummary(wsum.avg[m := st.avg], wsum.min[m := st.min], wsum.max[m := st.max]), daily, metrics, n + 1)
  {
    KeysStep(wsum, metrics, n, st);
    AgreesStep(wsum, daily, metrics, n, st);
  }

  lemma PrefixElementsStep<T>(s: seq<T>, n: nat)
    requires n < |s|
    ensures (set i | 0 <= i < n + 1 :: s[i]) == (set i | 0 <= i < n :: s[i]) + {s[n]}
  {
  }

  /**
   * The `forEach` over the metric list that fills `wsum.avg`, `wsum.min` and
   * `wsum.max`.
   */
  method ComputeSummary(daily: seq<DailyRecord>, metrics: seq<string>) returns (wsum: WindowSummary)
    requires |daily| > 0
    requires forall i :: 0 <= i < |metrics| ==> HasMetric(daily, metrics[i])
    ensures wsum.avg.Keys == wsum.min.Keys == wsum.max.Keys == set i | 0 <= i < |metrics| :: metrics[i]
    ensures forall i :: 0 <= i < |metrics| ==> SummaryAgrees(wsum, daily, metrics[i])
    ensures forall i :: 0 <= i < |metrics| ==>
              wsum.min[metrics[i]] <= wsum.avg[metrics[i]] <= wsum.max[metrics[i]]
  {
    wsum := WindowSummary(map[], map[], map[]);
    for n := 0 to |metrics|
      invariant SummarisedUpTo(wsum, daily, metrics, n)
    {
      var m := metrics[n];
      var st := ColumnStats(Column(daily, m), SummaryDecimals(m));
      SummaryStep(wsum, daily, metrics, n, st);
      wsum := WindowSummary(wsum.avg[m := st.avg], wsum.min[m := st.min], wsum.max[m := st.max]);
    }
    forall i | 0 <= i < |metrics|
      ensures wsum.min[metrics[i]] <= wsum.avg[metrics[i]] <= wsum.max[metrics[i]]
    {
      AgreesOrdered(wsum, daily, metrics[i]);
    }
  }
}
