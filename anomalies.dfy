/**
 * Anomaly records, the comment each one prints, the priority order used when
 * there are more than five, the re-matching of comments after capping, and
 * the final narrative.
 */
module Anomalies {
  import opened Wrappers
  import opened Text
  import opened Calendar
  import opened Catalog

  /**
   * A recorded anomaly. `Point` is a 급증 (`higher`) or 급감 record; `Variability`
   * is a 큰변동성 record. The trend kinds 상승추세/하락추세 that the ranking table
   * mentions are never produced, so they have no constructor.
   */
  datatype Anomaly =
    | Point(higher: bool, metric: string, day: int, date: Date, value: real, avgValue: real, percentChange: int)
    | Variability(metric: string, date: Date, value: real, cv: real)

  /** The record's `type` field. */
  function TypeLabel(a: Anomaly): string {
    match a
    case Point(higher, _, _, _, _, _, _) => if higher then "급증" else "급감"
    case Variability(_, _, _, _) => "큰변동성"
  }

  predicate WellFormed(a: Anomaly) {
    IsMetric(a.metric) && ValidDate(a.date)
  }

  function Direction(higher: bool): string {
    if higher then "높았습니다" else "낮았습니다"
  }

  /** The opening of a comment: the date, a separator, and the metric's name. */
  function Head(a: Anomaly): string
    requires WellFormed(a)
  {
    MonthDayToken(a.date) + (if a.Point? then ", 평소에 비해 " else ", ") + KoreanName(a.metric)
  }

  /** The rest of a comment: the value and percent change, or the coefficient of variation. */
  function Tail(a: Anomaly): string
    requires WellFormed(a)
  {
    match a
    case Point(higher, metric, _, _, value, _, pc) =>
      " 수치가 " + ShowNumber(value) + Unit(metric) + "로, 평소보다 " + ShowNumber(pc as real) + "% "
        + Direction(higher) + "."
    case Variability(_, _, _, cv) =>
      " 수치가 평소보다 크게 변동했습니다(변동계수: " + ShowNumber(cv) + "%)."
  }

  /** The comment template pushed together with each record. */
  function Render(a: Anomaly): string
    requires WellFormed(a)
  {
    Head(a) + Tail(a)
  }

  /** What the re-matching after capping looks for in a comment. */
  predicate Mentions(c: string, a: Anomaly)
    requires WellFormed(a)
  {
    Contains(c, MonthDayToken(a.date)) && Contains(c, KoreanName(a.metric))
  }

  /** Every rendered comment mentions its own date and metric name. */
  lemma RenderMentions(a: Anomaly)
    requires WellFormed(a)
    ensures Mentions(Render(a), a)
  {
    var token, name := MonthDayToken(a.date), KoreanName(a.metric);
    var sep := if a.Point? then ", 평소에 비해 " else ", ";
    assert Head(a) == token + sep + name;
    assert (token + sep + name)[..|token|] == token;
    assert IsPrefix(token, Head(a));
    ContainsBefore(Head(a), Tail(a), token);
    ContainsPiece(token + sep, name, []);
    assert token + sep + name + [] == Head(a);
    ContainsBefore(Head(a), Tail(a), name);
  }

  /** `typePriority`: spikes and drops 2, variability 1. */
  function Priority(a: Anomaly): int {
    if a.Point? then 2 else 1
  }

  /** The tie-breaker within one priority: percent change, or coefficient of variation. */
  function Magnitude(a: Anomaly): real {
    if a.Point? then a.percentChange as real else a.cv
  }

  /** `a` sorts strictly before `b` under the capping comparator. */
  predicate Outranks(a: Anomaly, b: Anomaly) {
    Priority(a) > Priority(b) || (Priority(a) == Priority(b) && Magnitude(a) > Magnitude(b))
  }

  function InsertRanked(x: Anomaly, s: seq<Anomaly>): (r: seq<Anomaly>)
    ensures |r| == |s| + 1
  {
    if s == [] || !Outranks(s[0], x) then [x] + s
    else [s[0]] + InsertRanked(x, s[1..])
  }

  /** The stable sort by the capping comparator: priority, then magnitude, both descending. */
  function RankSort(s: seq<Anomaly>): (r: seq<Anomaly>)
    ensures |r| == |s|
  {
    if s == [] then [] else InsertRanked(s[0], RankSort(s[1..]))
  }

  predicate Ranked(s: seq<Anomaly>) {
    forall i, j :: 0 <= i < j < |s| ==> !Outranks(s[j], s[i])
  }

  lemma {:induction false} InsertRankedMultiset(x: Anomaly, s: seq<Anomaly>)
    ensures multiset(InsertRanked(x, s)) == multiset(s) + multiset{x}
  {
    if s != [] && Outranks(s[0], x) {
      InsertRankedMultiset(x, s[1..]);
      assert s == [s[0]] + s[1..];
    }
  }

  predicate NoneOutranks(s: seq<Anomaly>, top: Anomaly) {
    forall k :: 0 <= k < |s| ==> !Outranks(s[k], top)
  }

  lemma {:induction false} InsertRankedBelow(x: Anomaly, s: seq<Anomaly>, top: Anomaly)
    requires NoneOutranks(s, top) && !Outranks(x, top)
    ensures NoneOutranks(InsertRanked(x, s), top)
  {
    if s != [] && Outranks(s[0], x) {
      InsertRankedBelow(x, s[1..], top);
    }
  }

  lemma {:induction false} InsertRankedRanked(x: Anomaly, s: seq<Anomaly>)
    requires Ranked(s)
    ensures Ranked(InsertRanked(x, s))
  {
    if s != [] && Outranks(s[0], x) {
      InsertRankedRanked(x, s[1..]);
      assert !Outranks(x, s[0]);
      InsertRankedBelow(x, s[1..], s[0]);
    } else if s != [] {
      assert NoneOutranks(s, x);
    }
  }

  /** The sort keeps exactly the same records and leaves none outranking an earlier one. */
  lemma {:induction false} RankSortProperties(s: seq<Anomaly>)
    ensures Ranked(RankSort(s))
    ensures multiset(RankSort(s)) == multiset(s)
  {
    if s != [] {
      RankSortProperties(s[1..]);
      InsertRankedRanked(s[0], RankSort(s[1..]));
      InsertRankedMultiset(s[0], RankSort(s[1..]));
      assert s == [s[0]] + s[1..];
    }
  }

  /** The records kept after capping: the five best-ranked when there are more than five. */
  function Cap(s: seq<Anomaly>): seq<Anomaly> {
    if |s| > 5 then RankSort(s)[..5] else s
  }

  /**
   * Capping keeps at most five records, all from the input, and no dropped
   * record outranks a kept one.
   */
  lemma CapProperties(s: seq<Anomaly>)
    ensures |Cap(s)| == if |s| > 5 then 5 else |s|
    ensures multiset(Cap(s)) <= multiset(s)
    ensures |s| > 5 ==> forall i, j :: 0 <= i < 5 <= j < |s| ==> !Outranks(RankSort(s)[j], RankSort(s)[i])
  {
    if |s| > 5 {
      RankSortProperties(s);
      var r := RankSort(s);
      assert r == r[..5] + r[5..];
      assert multiset(r[..5]) <= multiset(r);
    }
  }

  /** The index of the first comment that mentions the record, if any. */
  function FirstMention(comments: seq<string>, a: Anomaly): (r: Option<nat>)
    requires WellFormed(a)
    ensures r.Some? ==> r.value < |comments| && Mentions(comments[r.value], a)
    ensures r.Some? ==> forall k :: 0 <= k < r.value ==> !Mentions(comments[k], a)
    ensures r.None? ==> forall k :: 0 <= k < |comments| ==> !Mentions(comments[k], a)
  {
    if comments == [] then None
    else if Mentions(comments[0], a) then Some(0)
    else match FirstMention(comments[1..], a)
      case None => None
      case Some(i) => Some(i + 1)
  }

  /** The comment kept for one record: the first one mentioning it, or a freshly rendered one. */
  function Rematched(a: Anomaly, comments: seq<string>): string
    requires WellFormed(a)
  {
    match FirstMention(comments, a)
    case Some(i) => comments[i]
    case None => Render(a)
  }

  /** Whichever way it is found, the kept comment mentions the record's date and metric. */
  lemma RematchedMentions(a: Anomaly, comments: seq<string>)
    requires WellFormed(a)
    ensures Mentions(Rematched(a, comments), a)
  {
    if FirstMention(comments, a).None? {
      RenderMentions(a);
    }
  }

  /**
   * When the record's own comment is still in the list, the kept comment is
   * one of the existing comments: nothing is synthesised.
   */
  lemma RematchedFromList(a: Anomaly, comments: seq<string>)
    requires WellFormed(a) && Render(a) in comments
    ensures Rematched(a, comments) in comments
  {
    var k :| 0 <= k < |comments| && comments[k] == Render(a);
    RenderMentions(a);
    assert Mentions(comments[k], a);
  }

  lemma FirstMentionAt(comments: seq<string>, a: Anomaly, j: nat)
    requires WellFormed(a) && j < |comments| && Mentions(comments[j], a)
    requires forall k :: 0 <= k < j ==> !Mentions(comments[k], a)
    ensures FirstMention(comments, a) == Some(j)
  {
  }

  /** The inner search: the first comment containing both the date token and the metric name. */
  method FindMention(comments: seq<string>, a: Anomaly) returns (r: Option<nat>)
    requires WellFormed(a)
    ensures r == FirstMention(comments, a)
  {
    var token, name := MonthDayToken(a.date), KoreanName(a.metric);
    var j := 0;
    while j < |comments|
      invariant 0 <= j <= |comments|
      invariant forall k :: 0 <= k < j ==> !Mentions(comments[k], a)
    {
      if Contains(comments[j], token) && Contains(comments[j], name) {
        FirstMentionAt(comments, a, j);
        return Some(j);
      }
      j := j + 1;
    }
    return None;
  }

  predicate AllWellFormed(s: seq<Anomaly>) {
    forall k :: 0 <= k < |s| ==> WellFormed(s[k])
  }

  /** `xs.map(f)`, built on prefixes as the pushes build it. */
  function MapSeq<A, B>(s: seq<A>, f: A --> B): (r: seq<B>)
    requires forall k :: 0 <= k < |s| ==> f.requires(s[k])
    ensures |r| == |s|
  {
    if s == [] then [] else MapSeq(s[..|s| - 1], f) + [f(s[|s| - 1])]
  }

  lemma {:induction false} MapSeqAt<A, B>(s: seq<A>, f: A --> B, k: nat)
    requires forall i :: 0 <= i < |s| ==> f.requires(s[i])
    requires k < |s|
    ensures MapSeq(s, f)[k] == f(s[k])
  {
    var n := |s| - 1;
    if k < n {
      MapSeqAt(s[..n], f, k);
    }
  }

  lemma MapSeqSnoc<A, B>(s: seq<A>, x: A, f: A --> B)
    requires forall i :: 0 <= i < |s| ==> f.requires(s[i])
    requires f.requires(x)
    ensures forall i :: 0 <= i < |s + [x]| ==> f.requires((s + [x])[i])
    ensures MapSeq(s + [x], f) == MapSeq(s, f) + [f(x)]
  {
    assert (s + [x])[..|s|] == s;
  }

  lemma MapSeqPrefixStep<A, B>(s: seq<A>, n: nat, f: A --> B)
    requires forall i :: 0 <= i < |s| ==> f.requires(s[i])
    requires n < |s|
    ensures MapSeq(s[..n + 1], f) == MapSeq(s[..n], f) + [f(s[n])]
  {
    assert s[..n + 1][..n] == s[..n];
  }

  lemma {:induction false} MapSeqAppend<A, B>(s: seq<A>, t: seq<A>, f: A --> B)
    requires forall i :: 0 <= i < |s| ==> f.requires(s[i])
    requires forall i :: 0 <= i < |t| ==> f.requires(t[i])
    ensures forall i :: 0 <= i < |s + t| ==> f.requires((s + t)[i])
    ensures MapSeq(s + t, f) == MapSeq(s, f) + MapSeq(t, f)
  {
    if t == [] {
      assert s + t == s;
    } else {
      var n := |t| - 1;
      MapSeqAppend(s, t[..n], f);
      assert (s + t)[..|s + t| - 1] == s + t[..n];
    }
  }

  /** The comment pushed with each record, in order (`comments` before any capping). */
  function RenderAll(s: seq<Anomaly>): (r: seq<string>)
    requires AllWellFormed(s)
    ensures |r| == |s|
  {
    MapSeq(s, Render)
  }

  lemma RenderAllAt(s: seq<Anomaly>, k: nat)
    requires AllWellFormed(s) && k < |s|
    ensures RenderAll(s)[k] == Render(s[k])
  {
    MapSeqAt(s, Render, k);
  }

  /**
   * While the comment list is still the rendering of the records, each kept
   * record's re-matched comment is an existing one.
   */
  lemma RematchedFromRendered(all: seq<Anomaly>, k: nat)
    requires AllWellFormed(all) && k < |all|
    ensures Rematched(all[k], RenderAll(all)) in RenderAll(all)
  {
    RenderAllAt(all, k);
    RematchedFromList(all[k], RenderAll(all));
  }

  /** The re-matching of one record against a fixed comment list, as a function value. */
  function RematchWith(comments: seq<string>): Anomaly --> string {
    a requires WellFormed(a) => Rematched(a, comments)
  }

  /** The re-matched comment of every kept record, in order. */
  function RematchAll(kept: seq<Anomaly>, comments: seq<string>): (r: seq<string>)
    requires AllWellFormed(kept)
    ensures |r| == |kept|
  {
    MapSeq(kept, RematchWith(comments))
  }

  lemma RematchAllAt(kept: seq<Anomaly>, comments: seq<string>, k: nat)
    requires AllWellFormed(kept) && k < |kept|
    ensures RematchAll(kept, comments)[k] == Rematched(kept[k], comments)
  {
    MapSeqAt(kept, RematchWith(comments), k);
  }

  /** One comment per kept record, each mentioning that record's date and metric. */
  lemma RematchAllMentions(kept: seq<Anomaly>, comments: seq<string>, k: nat)
    requires AllWellFormed(kept) && k < |kept|
    ensures Mentions(RematchAll(kept, comments)[k], kept[k])
  {
    RematchAllAt(kept, comments, k);
    RematchedMentions(kept[k], comments);
  }

  /**
   * The comment re-matching after capping: for each kept record, the first
   * comment containing both its `M월 D일` token and its metric name, or, when
   * none does, the record's template rendered anew.
   */
  method RebuildComments(kept: seq<Anomaly>, comments: seq<string>) returns (filtered: seq<string>)
    requires AllWellFormed(kept)
    ensures filtered == RematchAll(kept, comments)
  {
    filtered := [];
    for n := 0 to |kept|
      invariant filtered == RematchAll(kept[..n], comments)
    {
      var found := FindMention(comments, kept[n]);
      var chosen := if found.Some? then comments[found.value] else Render(kept[n]);
      assert chosen == RematchWith(comments)(kept[n]);
      MapSeqPrefixStep(kept, n, RematchWith(comments));
      filtered := filtered + [chosen];
    }
    assert kept[..|kept|] == kept;
  }

  const NoAnomalySentence: string := "측정 기간 동안 특별한 변화나 특이사항이 발견되지 않았습니다. 현재의 건강 관리를 유지하세요."
  const NarrativeOpening: string := "측정 기간 동안 "
  const CountSuffix: string := "개의 특이사항이 발견되었습니다. "

  /** `finalComment`: the count of records, then the de-duplicated comments joined by spaces. */
  function Narrative(count: nat, comments: seq<string>): string {
    if count == 0 then NoAnomalySentence
    else NarrativeOpening + NatToString(count) + CountSuffix + Join(Dedup(comments), " ")
  }

  /** With records present, the narrative contains every comment. */
  lemma NarrativeMentionsEveryComment(count: nat, comments: seq<string>, i: nat)
    requires count > 0 && i < |comments|
    ensures Contains(Narrative(count, comments), comments[i])
  {
    var d := Dedup(comments);
    DedupSameElements(comments);
    assert comments[i] in d;
    var k :| 0 <= k < |d| && d[k] == comments[i];
    JoinContainsParts(d, " ", k);
    ContainsAfter(NarrativeOpening + NatToString(count) + CountSuffix, Join(d, " "), comments[i]);
  }

  lemma ConcatIndex(s1: string, r1: string, s2: string, r2: string)
    requires |s1| < |s2| && |r1| > 0 && s1 + r1 == s2 + r2
    ensures r1[0] == s2[|s1|]
  {
    assert (s1 + r1)[|s1|] == r1[0];
  }

  lemma DigitsThenSuffix(s1: string, s2: string, r1: string, r2: string)
    requires forall k :: 0 <= k < |s1| ==> '0' <= s1[k] <= '9'
    requires forall k :: 0 <= k < |s2| ==> '0' <= s2[k] <= '9'
    requires |r1| > 0 && |r2| > 0 && !('0' <= r1[0] <= '9') && !('0' <= r2[0] <= '9')
    requires s1 + r1 == s2 + r2
    ensures s1 == s2
  {
    if |s1| < |s2| {
      ConcatIndex(s1, r1, s2, r2);
      assert false;
    } else if |s2| < |s1| {
      ConcatIndex(s2, r2, s1, r1);
      assert false;
    }
    assert s1 == (s1 + r1)[..|s1|];
  }

  lemma RegroupOpening(n: nat, t: string)
    ensures NarrativeOpening + NatToString(n) + CountSuffix + t == NarrativeOpening + (NatToString(n) + (CountSuffix + t))
  {
  }

  lemma PrefixCancel(p: string, a: string, b: string)
    requires p + a == p + b
    ensures a == b
  {
    assert a == (p + a)[|p|..];
    assert b == (p + b)[|p|..];
  }

  lemma SuffixStartsWithUnit(t: string)
    ensures |CountSuffix + t| > 0 && (CountSuffix + t)[0] == '개'
  {
  }

  /** The count is read back from the narrative's opening, whatever follows it. */
  lemma OpeningDeterminesCount(n: nat, m: nat, t1: string, t2: string)
    requires NarrativeOpening + NatToString(n) + CountSuffix + t1 == NarrativeOpening + NatToString(m) + CountSuffix + t2
    ensures n == m
  {
    RegroupOpening(n, t1);
    RegroupOpening(m, t2);
    PrefixCancel(NarrativeOpening, NatToString(n) + (CountSuffix + t1), NatToString(m) + (CountSuffix + t2));
    SuffixStartsWithUnit(t1);
    SuffixStartsWithUnit(t2);
    DigitsThenSuffix(NatToString(n), NatToString(m), CountSuffix + t1, CountSuffix + t2);
    NatToStringInjective(n, m);
  }

  lemma OpeningIsNotFixedSentence(n: nat, t: string)
    ensures NarrativeOpening + NatToString(n) + CountSuffix + t != NoAnomalySentence
  {
    var p := |NarrativeOpening|;
    var x := NarrativeOpening + NatToString(n) + CountSuffix + t;
    assert x == NarrativeOpening + (NatToString(n) + CountSuffix + t);
    assert x[p] == NatToString(n)[0];
    assert NoAnomalySentence[p] == '특';
  }

  /** The narrative determines the number of records it reports. */
  lemma NarrativeDeterminesCount(n: nat, cs: seq<string>, m: nat, ds: seq<string>)
    requires Narrative(n, cs) == Narrative(m, ds)
    ensures n == m
  {
    if n > 0 && m > 0 {
      OpeningDeterminesCount(n, m, Join(Dedup(cs), " "), Join(Dedup(ds), " "));
    } else if n > 0 {
      OpeningIsNotFixedSentence(n, Join(Dedup(cs), " "));
    } else if m > 0 {
      OpeningIsNotFixedSentence(m, Join(Dedup(ds), " "));
    }
  }
}
