/**
 * The concrete random selections of both generators: how many metrics vary
 * and which, each one's pattern kind, which of the five days are measured,
 * and, for the normal generator, which calendar dates.
 */
module Selection {
  import opened Numeric
  import opened Text
  import opened Calendar
  import opened Catalog
  import opened Sampling

  /** 50% one metric, 30% two, 20% three. */
  function ChooseVariationsCount(u: real): (n: nat)
    ensures 1 <= n <= 3
    ensures n == 1 <==> u < 0.5
  {
    if u < 0.5 then 1 else if u < 0.8 then 2 else 3
  }

  /** 50% trend (1), 30% spike (0), 20% oscillation (2). */
  function ChoosePattern(u: real): (p: int)
    ensures 0 <= p <= 2
  {
    if u < 0.5 then 1 else if u < 0.8 then 0 else 2
  }

  /** `Math.floor(Math.random() * 3) + 3`. */
  function DaysCount(u: real): (n: nat)
    requires IsDraw(u)
    ensures 3 <= n <= 5
  {
    DrawIndex(u, 3) + 3
  }

  /** `Math.floor(Math.random() * 5) + 1`. */
  function MeasurementDays(u: real): (n: nat)
    requires IsDraw(u)
    ensures 1 <= n <= 5
  {
    DrawIndex(u, 5) + 1
  }

  /**
   * The first day of the window: a year in 2022..2025, a month, and a day of
   * at most 28, so the date exists in every month.
   */
  function StartDateOf(uYear: real, uMonth: real, uDay: real): (start: Date)
    requires IsDraw(uYear) && IsDraw(uMonth) && IsDraw(uDay)
    ensures ValidDate(start)
    ensures 2022 <= start.year <= 2025 && 1 <= start.month <= 12 && 1 <= start.day <= 28
  {
    Date(2022 + DrawIndex(uYear, 4), DrawIndex(uMonth, 12) + 1, DrawIndex(uDay, 28) + 1)
  }

  lemma AllMetricsDistinct()
    ensures Distinct(AllMetrics)
  {
  }

  /**
   * The varied metrics: `variationsCount` of the ten, picked by the splice
   * loop over a copy of the metric list.
   */
  method SelectMetrics(uCount: real, draws: seq<real>) returns (selected: seq<string>)
    requires |draws| >= 3 && AllDraws(draws)
    ensures selected == Drawn(AllMetrics, ChooseVariationsCount(uCount), draws)
    ensures |selected| == ChooseVariationsCount(uCount)
    ensures Distinct(selected)
    ensures forall k :: 0 <= k < |selected| ==> IsMetric(selected[k])
  {
    var count := ChooseVariationsCount(uCount);
    selected := DrawWithoutReplacement(AllMetrics, count, draws);
    AllMetricsDistinct();
    forall k | 0 <= k < |selected| ensures IsMetric(selected[k]) {
      assert selected[k] in AllMetrics;
    }
  }

  function Identity(x: int): int { x }

  /** The five day offsets of the window. */
  const AllDays: seq<int> := [0, 1, 2, 3, 4]

  /**
   * The measured day offsets: `daysCount` distinct offsets out of 0..4, then
   * `sort((a, b) => a - b)`.
   */
  method SelectDays(uCount: real, draws: seq<real>) returns (days: seq<int>)
    requires IsDraw(uCount) && |draws| >= 5 && AllDraws(draws)
    ensures days == SortByKey(Drawn(AllDays, DaysCount(uCount), draws), Identity)
    ensures |days| == DaysCount(uCount)
    ensures forall k :: 0 <= k < |days| ==> 0 <= days[k] <= 4
    ensures forall i, j :: 0 <= i < j < |days| ==> days[i] < days[j]
  {
    var count := DaysCount(uCount);
    var picked := DrawWithoutReplacement(AllDays, count, draws);
    days := SortByKey(picked, Identity);
    SortByKeyProperties(picked, Identity);
    SortedDays(picked, days);
  }

  lemma SortedDays(picked: seq<int>, days: seq<int>)
    requires multiset(picked) <= multiset(AllDays)
    requires multiset(days) == multiset(picked) && SortedBy(days, Identity)
    ensures forall k :: 0 <= k < |days| ==> 0 <= days[k] <= 4
    ensures forall i, j :: 0 <= i < j < |days| ==> days[i] < days[j]
  {
    assert Distinct(AllDays);
    SubMultisetDistinct(days, AllDays);
    forall k | 0 <= k < |days| ensures 0 <= days[k] <= 4 {
      assert days[k] in multiset(days);
    }
    forall i, j | 0 <= i < j < |days| ensures days[i] < days[j] {
      assert Identity(days[i]) <= Identity(days[j]);
    }
  }

  /** The five consecutive candidate dates starting at `start`. */
  function CandidateDates(start: Date): (w: seq<Date>)
    requires ValidDate(start)
    ensures |w| == 5
  {
    seq(5, i requires 0 <= i < 5 => AddDays(start, i))
  }

  lemma CandidateDatesDistinct(start: Date)
    requires ValidDate(start)
    ensures Distinct(CandidateDates(start))
    ensures forall k :: 0 <= k < 5 ==> ValidDate(CandidateDates(start)[k])
  {
    var w := CandidateDates(start);
    forall i, j | 0 <= i < j < 5 ensures w[i] != w[j] {
      if w[i] == w[j] {
        AddDaysInjective(start, i, j);
      }
    }
  }

  /**
   * The normal generator's measurement dates: `measurementDays` of the five
   * candidate dates, then the default string `sort()`, which orders
   * `YYYY-MM-DD` strings as calendar dates. The source's `for` loop runs
   * exactly `measurementDays` times; that never exceeds the pool of five, so
   * it picks what the splice loop picks.
   */
  method SelectDates(start: Date, uCount: real, draws: seq<real>) returns (dates: seq<Date>)
    requires ValidDate(start) && IsDraw(uCount) && |draws| >= 5 && AllDraws(draws)
    ensures dates == SortByKey(Drawn(CandidateDates(start), MeasurementDays(uCount), draws), DateKey)
    ensures |dates| == MeasurementDays(uCount)
    ensures forall k :: 0 <= k < |dates| ==> dates[k] in CandidateDates(start)
    ensures forall i, j :: 0 <= i < j < |dates| ==> Before(dates[i], dates[j])
  {
    var window := CandidateDates(start);
    var count := MeasurementDays(uCount);
    var picked := DrawWithoutReplacement(window, count, draws);
    dates := SortByKey(picked, DateKey);
    SortByKeyProperties(picked, DateKey);
    CandidateDatesDistinct(start);
    SameMultisetDistinct(dates, picked);
    forall k | 0 <= k < |dates| ensures dates[k] in window {
      assert dates[k] in multiset(dates);
      assert dates[k] in multiset(window);
    }
    forall i, j | 0 <= i < j < |dates| ensures Before(dates[i], dates[j]) {
      assert dates[i] in window && dates[j] in window;
      assert ValidDate(dates[i]) && ValidDate(dates[j]);
      DateKeyOrder(dates[i], dates[j]);
      DateKeyOrder(dates[j], dates[i]);
      assert DateKey(dates[i]) <= DateKey(dates[j]);
      assert dates[i] != dates[j];
    }
  }
}
