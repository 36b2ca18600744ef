/**
 * `generateHealthTrendAnalysis` from end to end: the draws that fix the
 * window, the baselines, the varied metrics and the measured days; the day
 * loop; the summary; the two detection passes; the resolution stage; the
 * narrative and the food recommendations.
 */
module TrendPipeline {
  import opened Wrappers
  import opened Numeric
  import opened Text
  import opened Calendar
  import opened Catalog
  import opened Injector
  import opened Sampling
  import opened Selection
  import opened Summary
  import opened Anomalies
  import opened Detection
  import opened TrendAnalysis
  import opened Resolution

  /**
   * Every `Math.random()` value one run reads, grouped by the call site that
   * reads it. `samples[k]` are the ten per-metric samples of the k-th
   * measured day and `injections[k][j]` the injector's draws for the j-th
   * varied metric on that day; `shuffledFoods` is the food list after the
   * random-comparator sort.
   */
  datatype Draws = Draws(
    height: real, year: real, month: real, day: real,
    bases: seq<real>,
    variations: real, metricPicks: seq<real>, patterns: seq<real>,
    daysCount: real, dayPicks: seq<real>,
    samples: seq<seq<real>>, injections: seq<seq<seq<real>>>,
    foods: seq<string>, shuffledFoods: seq<string>)

  ghost predicate WellDrawn(d: Draws) {
    && IsDraw(d.height) && IsDraw(d.year) && IsDraw(d.month) && IsDraw(d.day)
    && |d.bases| == |AllMetrics| && AllDraws(d.bases)
    && IsDraw(d.variations) && |d.metricPicks| >= 3 && AllDraws(d.metricPicks) && |d.patterns| >= 3
    && IsDraw(d.daysCount) && |d.dayPicks| >= 5 && AllDraws(d.dayPicks)
    && |d.samples| >= 5 && (forall k :: 0 <= k < |d.samples| ==> |d.samples[k]| == |AllMetrics| && AllDraws(d.samples[k]))
    && |d.injections| >= 5
    && (forall k :: 0 <= k < |d.injections| ==> |d.injections[k]| >= 3 && DrawnInjections(d.injections[k]))
    && multiset(d.shuffledFoods) == multiset(d.foods)
  }

  /** The draws behind a plan: each baseline from its own range, every sample and injector draw in [0, 1). */
  ghost predicate PlanDrawn(p: DayPlan, baseDraws: seq<real>)
    requires ValidPlan(p)
  {
    && |baseDraws| == |AllMetrics|
    && (forall i :: 0 <= i < |AllMetrics| ==> IsDraw(baseDraws[i]) && p.bases[i] == Baseline(AllMetrics[i], baseDraws[i]))
    && (forall k :: 0 <= k < |p.days| ==> AllDraws(p.samples[k]) && DrawnInjections(p.injections[k]))
    && (forall k :: 0 <= k < |p.days| ==> -1.0 <= p.sines[k] <= 1.0)
  }

  /** The nine baselines and the base weight, in `AllMetrics` order. */
  function Baselines(baseDraws: seq<real>): (bases: seq<real>)
    requires |baseDraws| == |AllMetrics|
    ensures |bases| == |AllMetrics|
    ensures forall i :: 0 <= i < |AllMetrics| ==> bases[i] == Baseline(AllMetrics[i], baseDraws[i])
  {
    seq(|AllMetrics|, i requires 0 <= i < |AllMetrics| => Baseline(AllMetrics[i], baseDraws[i]))
  }

  lemma PlanReady(d: Draws, sines: seq<real>, p: DayPlan)
    requires WellDrawn(d)
    requires p.bases == Baselines(d.bases) && p.samples == d.samples && p.injections == d.injections
    requires ValidDate(p.start) && |p.days| <= 5 && StrictlyIncreasing(p.days)
    requires forall k :: 0 <= k < |p.days| ==> 0 <= p.days[k]
    requires |p.selected| <= 3 && Distinct(p.selected) && forall j :: 0 <= j < |p.selected| ==> IsMetric(p.selected[j])
    requires |p.patterns| == |p.selected|
    requires |sines| == 5 && (forall k :: 0 <= k < 5 ==> -1.0 <= sines[k] <= 1.0) && p.sines == sines[..|p.days|]
    ensures ValidPlan(p) && PlanDrawn(p, d.bases)
  {
    forall k | 0 <= k < |p.days|
      ensures PatternInputs(p.selected, p.patterns, p.injections[k])
    {
      assert |d.injections[k]| >= 3;
      assert DrawnInjections(d.injections[k]);
    }
  }

  /** The sorted day offsets. */
  method DrawDays(d: Draws) returns (days: seq<int>)
    requires WellDrawn(d)
    ensures |days| == DaysCount(d.daysCount) && StrictlyIncreasing(days)
    ensures forall k :: 0 <= k < |days| ==> 0 <= days[k] <= 4
    ensures days == SortByKey(Drawn(AllDays, DaysCount(d.daysCount), d.dayPicks), Identity)
  {
    days := SelectDays(d.daysCount, d.dayPicks);
  }

  /** The varied metrics, one pattern each. */
  method DrawChoices(d: Draws) returns (selected: seq<string>, patterns: seq<int>)
    requires WellDrawn(d)
    ensures |selected| == ChooseVariationsCount(d.variations)
    ensures Distinct(selected) && forall j :: 0 <= j < |selected| ==> IsMetric(selected[j])
    ensures |patterns| == |selected| && forall j :: 0 <= j < |selected| ==> patterns[j] == ChoosePattern(d.patterns[j])
    ensures selected == Drawn(AllMetrics, ChooseVariationsCount(d.variations), d.metricPicks)
  {
    selected := SelectMetrics(d.variations, d.metricPicks);
    patterns := Patterns(d.patterns, |selected|);
  }

  /** `patternTypes`: one pattern per varied metric, each from its own draw. */
  function Patterns(draws: seq<real>, n: nat): (patterns: seq<int>)
    requires n <= |draws|
    ensures |patterns| == n && forall j :: 0 <= j < n ==> patterns[j] == ChoosePattern(draws[j])
  {
    seq(n, j requires 0 <= j < n => ChoosePattern(draws[j]))
  }

  /** The plan the draws fix, field by field. */
  ghost predicate PlannedFrom(d: Draws, sines: seq<real>, p: DayPlan)
    requires WellDrawn(d) && |sines| == 5
  {
    && p.start == StartDateOf(d.year, d.month, d.day)
    && p.height == RandomInRange(155.0, 190.0, 1, d.height)
    && p.bases == Baselines(d.bases)
    && p.selected == Drawn(AllMetrics, ChooseVariationsCount(d.variations), d.metricPicks)
    && p.patterns == Patterns(d.patterns, ChooseVariationsCount(d.variations))
    && p.days == SortByKey(Drawn(AllDays, DaysCount(d.daysCount), d.dayPicks), Identity)
    && p.samples == d.samples && p.injections == d.injections
    && |p.days| <= 5 && p.sines == sines[..|p.days|]
  }

  /**
   * Everything drawn before the day loop, in the source's order: the
   * height, the start date, the baselines, the varied metrics with one
   * pattern each, and the sorted day offsets. `sines[k]` is
   * `Math.sin(k * 2.5)`, the oscillation's phase on the k-th measured day.
   */
  method PlanDays(d: Draws, sines: seq<real>) returns (p: DayPlan)
    requires WellDrawn(d)
    requires |sines| == 5 && forall k :: 0 <= k < 5 ==> -1.0 <= sines[k] <= 1.0
    ensures ValidPlan(p) && PlanDrawn(p, d.bases)
    ensures p.start == StartDateOf(d.year, d.month, d.day) && p.height == RandomInRange(155.0, 190.0, 1, d.height)
    ensures |p.days| == DaysCount(d.daysCount) && forall k :: 0 <= k < |p.days| ==> 0 <= p.days[k] <= 4
    ensures 1 <= |p.selected| <= 3
    ensures PlannedFrom(d, sines, p)
  {
    var height := RandomInRange(155.0, 190.0, 1, d.height);
    var start := StartDateOf(d.year, d.month, d.day);
    var bases := Baselines(d.bases);
    var selected, patterns := DrawChoices(d);
    var days := DrawDays(d);
    p := DayPlan(start, days, bases, height, selected, patterns, d.samples, d.injections, sines[..|days|]);
    PlanReady(d, sines, p);
  }

  /** Every metric value the day loop records is at least one half. */
  lemma RecordValuePositive(p: DayPlan, baseDraws: seq<real>, k: nat, i: nat)
    requires ValidPlan(p) && PlanDrawn(p, baseDraws) && k < |p.days| && i < |AllMetrics|
    ensures AllMetrics[i] in DayRecord(p, k).values && DayRecord(p, k).values[AllMetrics[i]] >= 0.5
  {
    DayRecordValue(p, k, i);
    assert IsDraw(p.samples[k][i]);
    DayValuePositive(i, p.bases, p.samples[k], p.selected, p.patterns, p.injections[k], k, |p.days|, p.sines[k],
                     baseDraws[i]);
  }

  /** A column of values at least one half has a positive rounded average: the divisions by it are safe. */
  lemma AveragePositive(wsum: WindowSummary, daily: seq<DailyRecord>, m: string)
    requires |daily| > 0 && HasMetric(daily, m) && SummaryAgrees(wsum, daily, m)
    requires forall k :: 0 <= k < |daily| ==> daily[k].values[m] >= 0.5
    ensures wsum.avg[m] > 0.0
  {
    var col := Column(daily, m);
    MeanBetweenMinMax(col);
    assert SeqMin(col) >= 0.5;
    RoundPositive(Mean(col), SummaryDecimals(m));
  }

  /** The facts about the measured records that the later stages rely on. */
  ghost predicate MeasuredWell(daily: seq<DailyRecord>, start: Date, end: Date, height: real) {
    && (forall k :: 0 <= k < |daily| ==> ValidDate(daily[k].date) && ValidateDate(daily[k].date, start, end))
    && (forall i, j :: 0 <= i < j < |daily| ==> Before(daily[i].date, daily[j].date))
    && (forall k :: 0 <= k < |daily| ==> Height in daily[k].values && daily[k].values[Height] == height)
    && (forall k, i :: 0 <= k < |daily| && 0 <= i < |AllMetrics| ==>
          AllMetrics[i] in daily[k].values && daily[k].values[AllMetrics[i]] >= 0.5)
  }

  /**
   * The records of the day loop are dated on the measured days, in strictly
   * increasing order, inside the five-day window; they carry the same
   * height; and every metric value is at least one half.
   */
  lemma DayRecordsMeasuredWell(p: DayPlan, baseDraws: seq<real>)
    requires ValidPlan(p) && PlanDrawn(p, baseDraws)
    requires forall k :: 0 <= k < |p.days| ==> p.days[k] <= 4
    ensures MeasuredWell(DayRecords(p, |p.days|), p.start, AddDays(p.start, 5), p.height)
  {
    var daily := DayRecords(p, |p.days|);
    var end := AddDays(p.start, 5);
    forall k | 0 <= k < |daily|
      ensures ValidDate(daily[k].date) && ValidateDate(daily[k].date, p.start, end)
    {
      AddDaysMonotone(p.start, 0, p.days[k]);
      AddDaysMonotone(p.start, p.days[k], 5);
    }
    forall i, j | 0 <= i < j < |daily|
      ensures Before(daily[i].date, daily[j].date)
    {
      AddDaysStrictlyIncreasing(p.start, p.days[i], p.days[j]);
    }
    forall k, i | 0 <= k < |daily| && 0 <= i < |AllMetrics|
      ensures AllMetrics[i] in daily[k].values && daily[k].values[AllMetrics[i]] >= 0.5
    {
      RecordValuePositive(p, baseDraws, k, i);
    }
  }

  /**
   * `actualStartDate` and `actualEndDate`: the earliest and latest record
   * dates, or the drawn window when there are no records.
   */
  function ActualWindow(daily: seq<DailyRecord>, start: Date, end: Date): (Date, Date) {
    if |daily| > 0 then (Earliest(DatesOf(daily)), Latest(DatesOf(daily))) else (start, end)
  }

  /** Both detection passes, their records and comments concatenated in the source's order. */
  method DetectAll(series: map<string, seq<SeriesPoint>>, avg: map<string, real>, actualStart: Date, actualEnd: Date,
                   sqrt: real -> real, start: Date, end: Date)
    returns (found: seq<Anomaly>, comments: seq<string>)
    requires SeriesReady(AllMetrics, series, avg)
    requires forall i :: 0 <= i < |AllMetrics| ==> DatesValid(series[AllMetrics[i]])
    ensures found == PointPass(AllMetrics, series, avg, actualStart, actualEnd)
                     + VariabilityPass(AllMetrics, series, sqrt, start, end)
    ensures AllWellFormed(found) && comments == RenderAll(found)
  {
    var points, pointComments := DetectPoints(AllMetrics, series, avg, actualStart, actualEnd);
    var erratic, erraticComments := DetectVariability(AllMetrics, series, sqrt, start, end);
    MapSeqAppend(points, erratic, Render);
    found := points + erratic;
    comments := pointComments + erraticComments;
  }

  lemma SeriesDatesValid(series: map<string, seq<SeriesPoint>>, daily: seq<DailyRecord>, days: seq<int>)
    requires |days| >= |daily| && SeriesMatch(series, daily, days)
    requires forall k :: 0 <= k < |daily| ==> ValidDate(daily[k].date)
    ensures forall i :: 0 <= i < |AllMetrics| ==> AllMetrics[i] in series && DatesValid(series[AllMetrics[i]])
  {
  }

  /** The summary's averages are all positive, so every percent change and coefficient is defined. */
  lemma AveragesPositive(wsum: WindowSummary, daily: seq<DailyRecord>)
    requires |daily| > 0
    requires forall k, i :: 0 <= k < |daily| && 0 <= i < |AllMetrics| ==>
               AllMetrics[i] in daily[k].values && daily[k].values[AllMetrics[i]] >= 0.5
    requires forall i :: 0 <= i < |AllMetrics| ==> HasMetric(daily, AllMetrics[i]) && SummaryAgrees(wsum, daily, AllMetrics[i])
    ensures forall i :: 0 <= i < |AllMetrics| ==> AllMetrics[i] in wsum.avg && wsum.avg[AllMetrics[i]] > 0.0
  {
    forall i | 0 <= i < |AllMetrics|
      ensures wsum.avg[AllMetrics[i]] > 0.0
    {
      AveragePositive(wsum, daily, AllMetrics[i]);
    }
  }

  lemma ReadyToResolve(found: seq<Anomaly>, foundComments: seq<string>, valid: seq<DailyRecord>,
                       avg: map<string, real>, start: Date)
    requires AllWellFormed(found) && foundComments == RenderAll(found)
    requires forall i :: 0 <= i < |AllMetrics| ==> AllMetrics[i] in avg && HasMetric(valid, AllMetrics[i])
    requires forall k :: 0 <= k < |valid| ==> ValidDate(valid[k].date)
    requires ValidDate(start)
    ensures ResolveReady(found, foundComments, AllMetrics, valid, avg, start)
  {
  }

  /** What makes the ladder's scan pick: a record whose first metric is positive, and positive averages. */
  predicate LadderPremises(valid: seq<DailyRecord>, avg: map<string, real>) {
    && |valid| > 0 && AllMetrics[0] in valid[0].values && valid[0].values[AllMetrics[0]] > 0.0
    && forall i :: 0 <= i < |AllMetrics| ==> AllMetrics[i] in avg && avg[AllMetrics[i]] > 0.0
  }

  /**
   * The records the resolution stage leaves: when nothing was found, the one
   * record of the ladder's largest percent deviation; one to five found
   * records as they are; more than five cut to the first five of the ranking.
   */
  ghost predicate ResolvedFrom(found: seq<Anomaly>, valid: seq<DailyRecord>, avg: map<string, real>,
                               anomalies: seq<Anomaly>, pick: Option<Pick>)
    requires LadderReady(AllMetrics, valid, avg)
  {
    && (|found| == 0 ==>
          && pick.Some? && IsLadderPick(AllMetrics, valid, avg, pick)
          && anomalies == [FallbackRecord(AllMetrics, valid, avg, pick.value)])
    && (1 <= |found| <= 5 ==> anomalies == found)
    && (|found| > 5 ==> anomalies == RankSort(found)[..5])
  }

  /**
   * The comments that go with the resolved records: the ladder record's own
   * comment when nothing was found, the comments the passes pushed when one
   * to five were found, and the kept five's re-matched comments beyond.
   */
  ghost predicate CommentedFrom(found: seq<Anomaly>, anomalies: seq<Anomaly>, comments: seq<string>)
    requires AllWellFormed(found) && AllWellFormed(anomalies)
  {
    && (|found| == 0 ==> |anomalies| == 1 && comments == [Render(anomalies[0])])
    && (1 <= |found| <= 5 ==> comments == RenderAll(found))
    && (|found| > 5 ==> comments == RematchAll(anomalies, RenderAll(found)))
  }

  /**
   * The resolution stage over the window's records: the specified `Resolve`
   * for the ladder's `pick`, with what it promises about its result.
   */
  method ResolveWindow(found: seq<Anomaly>, foundComments: seq<string>, valid: seq<DailyRecord>,
                       avg: map<string, real>, start: Date)
    returns (anomalies: seq<Anomaly>, comments: seq<string>, pick: Option<Pick>)
    requires ResolveReady(found, foundComments, AllMetrics, valid, avg, start)
    ensures |found| == 0 && |valid| > 0 ==> IsLadderPick(AllMetrics, valid, avg, pick)
    ensures (anomalies, comments) == Resolve(found, foundComments, AllMetrics, valid, avg, start, pick)
    ensures 1 <= |anomalies| <= 5 && AllWellFormed(anomalies) && |comments| == |anomalies|
    ensures forall k :: 0 <= k < |anomalies| ==> Mentions(comments[k], anomalies[k])
    ensures |found| > 0 ==> multiset(anomalies) <= multiset(found)
    ensures 1 <= |found| <= 5 ==> comments == foundComments
    ensures |found| > 0 || LadderPremises(valid, avg) ==> ResolvedFrom(found, valid, avg, anomalies, pick)
  {
    anomalies, comments, pick := ResolveAnomalies(found, foundComments, AllMetrics, valid, avg, start);
    ResolveBounds(found, foundComments, AllMetrics, valid, avg, start, pick);
    if |found| > 0 {
      ResolveKeepsFound(found, foundComments, AllMetrics, valid, avg, start, pick);
    } else if LadderPremises(valid, avg) {
      LadderPreemptsPlaceholder(found, foundComments, AllMetrics, valid, avg, start, pick);
    }
  }

  /** Measured records and positive averages meet the premises under which the ladder always picks. */
  lemma MeasuredLadderPremises(daily: seq<DailyRecord>, wsum: WindowSummary, start: Date, end: Date, height: real)
    requires |daily| > 0 && MeasuredWell(daily, start, end, height)
    requires forall i :: 0 <= i < |AllMetrics| ==> AllMetrics[i] in wsum.avg && wsum.avg[AllMetrics[i]] > 0.0
    ensures LadderPremises(daily, wsum.avg)
  {
    assert daily[0].values[AllMetrics[0]] >= 0.5;
  }

  /** `wsum` over the measured records: ordered, with positive averages, so the ladder always picks. */
  method SummariseWindow(daily: seq<DailyRecord>, start: Date, end: Date, height: real) returns (wsum: WindowSummary)
    requires |daily| > 0 && MeasuredWell(daily, start, end, height)
    ensures forall i :: 0 <= i < |AllMetrics| ==>
              HasMetric(daily, AllMetrics[i]) && SummaryAgrees(wsum, daily, AllMetrics[i])
              && wsum.min[AllMetrics[i]] <= wsum.avg[AllMetrics[i]] <= wsum.max[AllMetrics[i]]
    ensures LadderPremises(daily, wsum.avg)
  {
    wsum := ComputeSummary(daily, AllMetrics);
    AveragesPositive(wsum, daily);
    MeasuredLadderPremises(daily, wsum, start, end, height);
  }

  /**
   * From the records to the final list: the window the records span, the
   * summary, both detection passes, and the resolution stage.
   */
  method AnalyseWindow(daily: seq<DailyRecord>, series: map<string, seq<SeriesPoint>>, days: seq<int>,
                       start: Date, end: Date, height: real, sqrt: real -> real)
    returns (wsum: WindowSummary, found: seq<Anomaly>, anomalies: seq<Anomaly>, comments: seq<string>,
             pick: Option<Pick>)
    requires 0 < |daily| <= |days| && ValidDate(start)
    requires MeasuredWell(daily, start, end, height) && SeriesMatch(series, daily, days)
    ensures forall i :: 0 <= i < |AllMetrics| ==>
              HasMetric(daily, AllMetrics[i]) && SummaryAgrees(wsum, daily, AllMetrics[i])
              && wsum.min[AllMetrics[i]] <= wsum.avg[AllMetrics[i]] <= wsum.max[AllMetrics[i]]
    ensures SeriesReady(AllMetrics, series, wsum.avg)
    ensures var (actualStart, actualEnd) := ActualWindow(daily, start, end);
            found == PointPass(AllMetrics, series, wsum.avg, actualStart, actualEnd)
                     + VariabilityPass(AllMetrics, series, sqrt, start, end)
    ensures AllWellFormed(found)
    ensures 1 <= |anomalies| <= 5 && AllWellFormed(anomalies) && |comments| == |anomalies|
    ensures forall k :: 0 <= k < |anomalies| ==> Mentions(comments[k], anomalies[k])
    ensures |found| > 0 ==> multiset(anomalies) <= multiset(found)
    ensures LadderReady(AllMetrics, daily, wsum.avg) && ResolvedFrom(found, daily, wsum.avg, anomalies, pick)
    ensures CommentedFrom(found, anomalies, comments)
  {
    var (actualStart, actualEnd) := ActualWindow(daily, start, end);
    var valid := InWindow(daily, actualStart, actualEnd);
    ValidDailyIsAll(daily);
    wsum := SummariseWindow(daily, start, end, height);
    SeriesDatesValid(series, daily, days);
    found, comments := DetectAll(series, wsum.avg, actualStart, actualEnd, sqrt, start, end);
    assert valid == daily;
    ReadyToResolve(found, comments, daily, wsum.avg, start);
    anomalies, comments, pick := ResolveWindow(found, comments, daily, wsum.avg, start);
  }

  /**
   * `cmt.g`: the fixed sentence when there are no records, otherwise the
   * opening, the count and the de-duplicated comments joined by spaces.
   */
  method Narrate(anomalies: seq<Anomaly>, comments: seq<string>) returns (remarks: seq<string>, comment: string)
    requires AllWellFormed(anomalies) && |comments| == |anomalies|
    requires forall k :: 0 <= k < |anomalies| ==> Mentions(comments[k], anomalies[k])
    ensures remarks == Dedup(comments) && Distinct(remarks)
    ensures |anomalies| == 0 ==> comment == NoAnomalySentence
    ensures |anomalies| > 0 ==> comment == NarrativeOpening + NatToString(|anomalies|) + CountSuffix + Join(remarks, " ")
    ensures forall k :: 0 <= k < |anomalies| ==> Mentions(comment, anomalies[k])
  {
    remarks := Dedup(comments);
    DedupDistinct(comments);
    comment := if |anomalies| == 0 then NoAnomalySentence
               else NarrativeOpening + NatToString(|anomalies|) + CountSuffix + Join(remarks, " ");
    if |anomalies| > 0 {
      NarrativeMentionsAnomalies(anomalies, comments);
    }
  }

  /**
   * One generated record: the window (`ws`, `we`), the daily records (`dm`),
   * the summary (`wsum`), the anomaly list (`anom`), the de-duplicated
   * comments the narrative joins, the narrative (`cmt.g`) and the food
   * recommendations (`fd`).
   */
  datatype Analysis = Analysis(start: Date, end: Date, daily: seq<DailyRecord>, wsum: WindowSummary,
                               anomalies: seq<Anomaly>, remarks: seq<string>, comment: string, food: seq<string>)

  /**
   * The records of a run are its plan's `DayRecords`, measured inside the
   * five-day window, and the summary agrees with them, ordered and with
   * positive averages.
   */
  ghost predicate Summarised(p: DayPlan, r: Analysis)
    requires ValidPlan(p)
  {
    && r.start == p.start && r.end == AddDays(p.start, 5)
    && r.daily == DayRecords(p, |p.days|) && MeasuredWell(r.daily, r.start, r.end, p.height)
    && |r.daily| > 0
    && (forall i :: 0 <= i < |AllMetrics| ==>
          HasMetric(r.daily, AllMetrics[i]) && SummaryAgrees(r.wsum, r.daily, AllMetrics[i])
          && 0.0 < r.wsum.avg[AllMetrics[i]]
          && r.wsum.min[AllMetrics[i]] <= r.wsum.avg[AllMetrics[i]] <= r.wsum.max[AllMetrics[i]])
  }

  /** The series match the records and the found records are both passes over them. */
  ghost predicate Detected(days: seq<int>, sqrt: real -> real, r: Analysis, series: map<string, seq<SeriesPoint>>,
                           found: seq<Anomaly>)
    requires |r.daily| <= |days|
  {
    && SeriesMatch(series, r.daily, days) && SeriesReady(AllMetrics, series, r.wsum.avg)
    && (var (actualStart, actualEnd) := ActualWindow(r.daily, r.start, r.end);
        found == PointPass(AllMetrics, series, r.wsum.avg, actualStart, actualEnd)
                 + VariabilityPass(AllMetrics, series, sqrt, r.start, r.end))
  }

  /**
   * The final one to five records are resolved from the found ones, and the
   * narrative announces their number over distinct comments and mentions
   * every one of them.
   */
  ghost predicate Concluded(r: Analysis, found: seq<Anomaly>, pick: Option<Pick>, comments: seq<string>) {
    && LadderReady(AllMetrics, r.daily, r.wsum.avg) && ResolvedFrom(found, r.daily, r.wsum.avg, r.anomalies, pick)
    && 1 <= |r.anomalies| <= 5 && AllWellFormed(r.anomalies) && AllWellFormed(found)
    && CommentedFrom(found, r.anomalies, comments)
    && (forall k :: 0 <= k < |r.anomalies| ==> Mentions(r.comment, r.anomalies[k]))
    && r.remarks == Dedup(comments) && Distinct(r.remarks)
    && r.comment == NarrativeOpening + NatToString(|r.anomalies|) + CountSuffix + Join(r.remarks, " ")
  }

  /** What one run computes from its plan. */
  ghost predicate Analysed(p: DayPlan, sqrt: real -> real, r: Analysis, series: map<string, seq<SeriesPoint>>,
                           found: seq<Anomaly>, pick: Option<Pick>, comments: seq<string>)
    requires ValidPlan(p)
  {
    Summarised(p, r) && Detected(p.days, sqrt, r, series, found) && Concluded(r, found, pick, comments)
  }

  /**
   * Everything after the draws: the day loop over the plan, the window's
   * summary, detection and resolution, and the narrative; the food
   * recommendations are carried into the record as given.
   */
  method RunPlan(p: DayPlan, baseDraws: seq<real>, sqrt: real -> real, food: seq<string>)
    returns (r: Analysis, ghost series: map<string, seq<SeriesPoint>>, ghost found: seq<Anomaly>,
             ghost pick: Option<Pick>, ghost comments: seq<string>)
    requires ValidPlan(p) && PlanDrawn(p, baseDraws) && |p.days| > 0
    requires forall k :: 0 <= k < |p.days| ==> p.days[k] <= 4
    ensures Analysed(p, sqrt, r, series, found, pick, comments) && r.food == food
  {
    var end := AddDays(p.start, 5);
    var daily, points := MeasureDays(p);
    DayRecordsMeasuredWell(p, baseDraws);
    var wsum, detected, anomalies, resolved, picked := AnalyseWindow(daily, points, p.days, p.start, end,
                                                                     p.height, sqrt);
    series, found, pick, comments := points, detected, picked, resolved;
    var remarks, comment := Narrate(anomalies, resolved);
    r := Analysis(p.start, end, daily, wsum, anomalies, remarks, comment, food);
  }

  /**
   * `generateHealthTrendAnalysis`. `sines[k]` is `Math.sin(k * 2.5)` and
   * `sqrt` is `Math.sqrt`, used only for the printed coefficient of
   * variation.
   */
  method GenerateHealthTrendAnalysis(d: Draws, sines: seq<real>, sqrt: real -> real)
    returns (r: Analysis, ghost p: DayPlan, ghost series: map<string, seq<SeriesPoint>>, ghost found: seq<Anomaly>,
             ghost pick: Option<Pick>, ghost comments: seq<string>)
    requires WellDrawn(d)
    requires |sines| == 5 && forall k :: 0 <= k < 5 ==> -1.0 <= sines[k] <= 1.0
    ensures ValidPlan(p) && PlannedFrom(d, sines, p) && Analysed(p, sqrt, r, series, found, pick, comments)
    ensures r.start == StartDateOf(d.year, d.month, d.day) && r.end == AddDays(r.start, 5)
    ensures 3 <= |r.daily| <= 5
    ensures multiset(r.food) <= multiset(d.foods) && (|d.foods| >= 3 ==> |r.food| == 3)
  {
    var plan := PlanDays(d, sines);
    var food := FoodRecommendations(d.foods, d.shuffledFoods);
    FoodRecommendationsFromPool(d.foods, d.shuffledFoods);
    r, series, found, pick, comments := RunPlan(plan, d.bases, sqrt, food);
    p := plan;
  }
}
