/**
 * What `generateHealthTrendAnalysis` does with the records the two detection
 * passes found: the fallback ladder when there are none (the largest percent
 * deviation, then the heart-rate placeholder), the cap at five with the
 * comments re-matched, and the final narrative over the de-duplicated
 * comments.
 */
module Resolution {
  import opened Wrappers
  import opened Text
  import opened Calendar
  import opened Catalog
  import opened Summary
  import opened Anomalies
  import opened Detection

  /** What the resolution stage may rely on about its inputs. */
  predicate ResolveReady(found: seq<Anomaly>, foundComments: seq<string>, ms: seq<string>,
                         valid: seq<DailyRecord>, avg: map<string, real>, start: Date)
  {
    && AllWellFormed(found) && foundComments == RenderAll(found)
    && (forall i :: 0 <= i < |ms| ==> IsMetric(ms[i]))
    && LadderReady(ms, valid, avg)
    && (forall k :: 0 <= k < |valid| ==> ValidDate(valid[k].date))
    && ValidDate(start)
  }

  lemma FallbackWellFormed(ms: seq<string>, valid: seq<DailyRecord>, avg: map<string, real>, p: Pick)
    requires LadderReady(ms, valid, avg) && Eligible(ms, valid, avg, p.metricIndex, p.dayIndex)
    requires forall i :: 0 <= i < |ms| ==> IsMetric(ms[i])
    requires forall k :: 0 <= k < |valid| ==> ValidDate(valid[k].date)
    ensures WellFormed(FallbackRecord(ms, valid, avg, p))
  {
  }

  lemma PlaceholderWellFormed(avg: map<string, real>, valid: seq<DailyRecord>, start: Date)
    requires forall k :: 0 <= k < |valid| ==> ValidDate(valid[k].date)
    requires ValidDate(start)
    ensures WellFormed(Placeholder(avg, valid, start))
  {
  }

  lemma FallbackOfWellFormed(ms: seq<string>, valid: seq<DailyRecord>, avg: map<string, real>, start: Date, pick: Option<Pick>)
    requires ResolveReady([], [], ms, valid, avg, start)
    requires |valid| > 0 && pick.Some? ==> Eligible(ms, valid, avg, pick.value.metricIndex, pick.value.dayIndex)
    ensures WellFormed(FallbackOf(ms, valid, avg, start, pick))
  {
    if |valid| > 0 && pick.Some? {
      FallbackWellFormed(ms, valid, avg, pick.value);
    }
  }

  /**
   * The records and comments after the ladder and the cap, given what the
   * ladder's scan picked (`pick` is only read when nothing was found).
   */
  function Resolve(found: seq<Anomaly>, foundComments: seq<string>, ms: seq<string>, valid: seq<DailyRecord>,
                   avg: map<string, real>, start: Date, pick: Option<Pick>): (seq<Anomaly>, seq<string>)
    requires ResolveReady(found, foundComments, ms, valid, avg, start)
    requires |found| == 0 && |valid| > 0 && pick.Some? ==> Eligible(ms, valid, avg, pick.value.metricIndex, pick.value.dayIndex)
  {
    if |found| == 0 then
      var a := FallbackOf(ms, valid, avg, start, pick);
      FallbackOfWellFormed(ms, valid, avg, start, pick);
      ([a], [Render(a)])
    else if |found| > 5 then
      CapWellFormed(found);
      (Cap(found), RematchAll(Cap(found), foundComments))
    else
      (found, foundComments)
  }

  lemma CapWellFormed(found: seq<Anomaly>)
    requires AllWellFormed(found)
    ensures AllWellFormed(Cap(found))
  {
    CapProperties(found);
    forall k | 0 <= k < |Cap(found)|
      ensures WellFormed(Cap(found)[k])
    {
      var a := Cap(found)[k];
      assert a in multiset(Cap(found));
      assert a in multiset(found);
      assert a in found;
    }
  }

  /** The record the empty case adds: the ladder's pick, or else the placeholder. */
  function FallbackOf(ms: seq<string>, valid: seq<DailyRecord>, avg: map<string, real>, start: Date, pick: Option<Pick>): Anomaly
    requires LadderReady(ms, valid, avg)
    requires |valid| > 0 && pick.Some? ==> Eligible(ms, valid, avg, pick.value.metricIndex, pick.value.dayIndex)
  {
    if |valid| > 0 && pick.Some? then FallbackRecord(ms, valid, avg, pick.value) else Placeholder(avg, valid, start)
  }

  /**
   * Both rungs of the ladder, in the source's order: the scan when some
   * record lies in the window, then the placeholder when it found nothing.
   */
  method FallBack(ms: seq<string>, valid: seq<DailyRecord>, avg: map<string, real>, start: Date)
    returns (a: Anomaly, pick: Option<Pick>)
    requires ResolveReady([], [], ms, valid, avg, start)
    ensures |valid| > 0 ==> IsLadderPick(ms, valid, avg, pick)
    ensures |valid| == 0 ==> pick.None?
    ensures |valid| > 0 && pick.Some? ==> Eligible(ms, valid, avg, pick.value.metricIndex, pick.value.dayIndex)
    ensures a == FallbackOf(ms, valid, avg, start, pick) && WellFormed(a)
  {
    pick := None;
    var found := false;
    if |valid| > 0 {
      pick := LargestDeviation(ms, valid, avg);
      if pick.Some? {
        FallbackWellFormed(ms, valid, avg, pick.value);
        a := FallbackRecord(ms, valid, avg, pick.value);
        found := true;
      }
    }
    if !found {
      PlaceholderWellFormed(avg, valid, start);
      a := Placeholder(avg, valid, start);
    }
  }

  /**
   * The stage as the source runs it: the ladder when nothing was found, one
   * pushed record with its comment, or the sort, the slice to five and the
   * rebuilt comments.
   */
  method ResolveAnomalies(found: seq<Anomaly>, foundComments: seq<string>, ms: seq<string>,
                          valid: seq<DailyRecord>, avg: map<string, real>, start: Date)
    returns (anomalies: seq<Anomaly>, comments: seq<string>, pick: Option<Pick>)
    requires ResolveReady(found, foundComments, ms, valid, avg, start)
    ensures |found| == 0 && |valid| > 0 ==> IsLadderPick(ms, valid, avg, pick)
    ensures !(|found| == 0 && |valid| > 0) ==> pick.None?
    ensures (anomalies, comments) == Resolve(found, foundComments, ms, valid, avg, start, pick)
  {
    pick := None;
    if |found| == 0 {
      var a;
      a, pick := FallBack(ms, valid, avg, start);
      anomalies, comments := [a], [Render(a)];
    } else if |found| > 5 {
      CapWellFormed(found);
      anomalies := RankSort(found)[..5];
      comments := RebuildComments(anomalies, foundComments);
    } else {
      anomalies, comments := found, foundComments;
    }
  }

  /**
   * Whatever the detection passes found, the stage leaves between one and
   * five well-formed records, each with exactly one comment that mentions its
   * date and its metric.
   */
  lemma ResolveBounds(found: seq<Anomaly>, foundComments: seq<string>, ms: seq<string>, valid: seq<DailyRecord>,
                      avg: map<string, real>, start: Date, pick: Option<Pick>)
    requires ResolveReady(found, foundComments, ms, valid, avg, start)
    requires |found| == 0 && |valid| > 0 && pick.Some? ==> Eligible(ms, valid, avg, pick.value.metricIndex, pick.value.dayIndex)
    ensures var (anomalies, comments) := Resolve(found, foundComments, ms, valid, avg, start, pick);
            && 1 <= |anomalies| <= 5 && |comments| == |anomalies| && AllWellFormed(anomalies)
            && forall k :: 0 <= k < |anomalies| ==> Mentions(comments[k], anomalies[k])
  {
    var (anomalies, comments) := Resolve(found, foundComments, ms, valid, avg, start, pick);
    if |found| == 0 {
      FallbackOfWellFormed(ms, valid, avg, start, pick);
      RenderMentions(anomalies[0]);
    } else if |found| > 5 {
      CapProperties(found);
      CapWellFormed(found);
      forall k | 0 <= k < |anomalies|
        ensures Mentions(comments[k], anomalies[k])
      {
        RematchAllMentions(anomalies, foundComments, k);
      }
    } else {
      forall k | 0 <= k < |anomalies|
        ensures Mentions(comments[k], anomalies[k])
      {
        RenderAllAt(found, k);
        RenderMentions(found[k]);
      }
    }
  }

  /**
   * Found records survive: one to five are kept as they are with their own
   * comments; more are cut to the five that no dropped record outranks.
   */
  lemma ResolveKeepsFound(found: seq<Anomaly>, foundComments: seq<string>, ms: seq<string>, valid: seq<DailyRecord>,
                          avg: map<string, real>, start: Date, pick: Option<Pick>)
    requires ResolveReady(found, foundComments, ms, valid, avg, start) && |found| > 0
    ensures var (anomalies, comments) := Resolve(found, foundComments, ms, valid, avg, start, pick);
            && multiset(anomalies) <= multiset(found)
            && (|found| <= 5 ==> anomalies == found && comments == foundComments)
            && (|found| > 5 ==>
                  && anomalies == RankSort(found)[..5]
                  && forall i, j :: 0 <= i < 5 <= j < |found| ==> !Outranks(RankSort(found)[j], RankSort(found)[i]))
  {
    CapProperties(found);
  }

  /**
   * When nothing was found, every average is positive and the window holds a
   * record whose first metric is positive, the scan always picks, so the one record is
   * the largest percent deviation and never the placeholder.
   */
  lemma LadderPreemptsPlaceholder(found: seq<Anomaly>, foundComments: seq<string>, ms: seq<string>,
                                  valid: seq<DailyRecord>, avg: map<string, real>, start: Date, pick: Option<Pick>)
    requires ResolveReady(found, foundComments, ms, valid, avg, start) && |found| == 0
    requires |ms| > 0 && |valid| > 0 && valid[0].values[ms[0]] > 0.0
    requires forall i :: 0 <= i < |ms| ==> avg[ms[i]] > 0.0
    requires IsLadderPick(ms, valid, avg, pick)
    ensures pick.Some?
    ensures var (anomalies, comments) := Resolve(found, foundComments, ms, valid, avg, start, pick);
            && anomalies == [FallbackRecord(ms, valid, avg, pick.value)]
            && comments == [Render(anomalies[0])]
            && anomalies[0].percentChange >= 0
  {
    LadderAlwaysPicks(ms, valid, avg, pick);
    var p := pick.value;
    var m := ms[p.metricIndex];
    PercentChangeNonNegative(valid[p.dayIndex].values[m], avg[m]);
  }

  /**
   * With one comment per record that mentions it, the narrative mentions
   * every record's date and metric name.
   */
  lemma NarrativeMentionsAnomalies(anomalies: seq<Anomaly>, comments: seq<string>)
    requires |anomalies| > 0 && AllWellFormed(anomalies) && |comments| == |anomalies|
    requires forall k :: 0 <= k < |anomalies| ==> Mentions(comments[k], anomalies[k])
    ensures forall k :: 0 <= k < |anomalies| ==> Mentions(Narrative(|anomalies|, comments), anomalies[k])
  {
    var n := Narrative(|anomalies|, comments);
    forall k | 0 <= k < |anomalies|
      ensures Mentions(n, anomalies[k])
    {
      NarrativeMentionsEveryComment(|anomalies|, comments, k);
      ContainsTransitive(n, comments[k], MonthDayToken(anomalies[k].date));
      ContainsTransitive(n, comments[k], KoreanName(anomalies[k].metric));
    }
  }
}
