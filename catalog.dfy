/**
 * The metric catalog: the ten measured metric codes, their display names and
 * units, their day-to-day "normal variation", the detection thresholds, the
 * anomaly factors of the injector, and the rounding used for each metric.
 * Lookups of a code outside the catalog behave as the source's object lookups
 * do: a missing normal variation is `None` (JavaScript's `undefined`), and the
 * threshold tables fall back to their documented defaults.
 */
module Catalog {
  import opened Wrappers

  /** `allMetrics`, in the source's order. */
  const AllMetrics: seq<string> := ["bf", "mm", "bw", "prot", "min", "wt", "hr", "o2", "sys", "dia"]

  /** Height: recorded every day, never varied, never analysed. */
  const Height: string := "ht"

  predicate IsMetric(code: string) {
    code in AllMetrics
  }

  /** Metrics recorded as whole numbers (vitals and blood pressure). */
  predicate IsWholeMetric(code: string) {
    code == "hr" || code == "o2" || code == "sys" || code == "dia"
  }

  /** `metricKoreanNames`. */
  const KoreanNames: map<string, string> := map[
    "bf" := "체지방률", "mm" := "근육량", "bw" := "체수분률", "prot" := "단백질",
    "min" := "무기질", "wt" := "체중", "ht" := "신장", "hr" := "심박수",
    "o2" := "산소포화도", "sys" := "수축기혈압", "dia" := "이완기혈압"]

  /** The display name of a metric (`metricKoreanNames[metric]`). */
  function KoreanName(code: string): (name: string)
    requires IsMetric(code)
    ensures name != []
  {
    KoreanNames[code]
  }

  /** `getUnit`: "%", "kg", "bpm", "mmHg", or "" for an unknown code. */
  function Unit(code: string): (u: string)
    ensures u == "" <==> !IsMetric(code)
    ensures u == "kg" <==> code == "mm" || code == "wt"
    ensures u == "mmHg" <==> code == "sys" || code == "dia"
  {
    match code
    case "bf" => "%"
    case "bw" => "%"
    case "mm" => "kg"
    case "wt" => "kg"
    case "prot" => "%"
    case "min" => "%"
    case "hr" => "bpm"
    case "o2" => "%"
    case "sys" => "mmHg"
    case "dia" => "mmHg"
    case _ => ""
  }

  const NormalVariationTable: map<string, real> := map[
    "bf" := 0.5, "mm" := 0.3, "bw" := 1.0, "prot" := 0.2, "min" := 0.1,
    "wt" := 1.0, "hr" := 8.0, "o2" := 1.0, "sys" := 8.0, "dia" := 5.0]

  /** `normalVariation[metric]`: defined, and positive, exactly for the ten metrics. */
  function NormalVariation(code: string): (nv: Option<real>)
    ensures nv.Some? <==> IsMetric(code)
    ensures nv.Some? ==> 0.1 <= nv.value <= 8.0
  {
    if code in NormalVariationTable then Some(NormalVariationTable[code]) else None
  }

  const SignificanceTable: map<string, real> := map[
    "bf" := 2.5, "mm" := 2.5, "bw" := 2.5, "prot" := 2.5, "min" := 3.0,
    "wt" := 2.0, "hr" := 2.0, "o2" := 3.0, "sys" := 2.0, "dia" := 2.0]

  /** `significanceThresholds[metric] || 2.5`. */
  function SignificanceThreshold(code: string): (t: real)
    ensures !IsMetric(code) ==> t == 2.5
    ensures 2.0 <= t <= 3.0
  {
    if code in SignificanceTable then SignificanceTable[code] else 2.5
  }

  const CvTable: map<string, real> := map[
    "bf" := 2.0, "mm" := 1.5, "bw" := 2.0, "prot" := 1.5, "min" := 2.0,
    "wt" := 1.0, "hr" := 7.0, "o2" := 1.5, "sys" := 7.0, "dia" := 6.0]

  /** `cvThresholds[metric] || 3.0`. */
  function CvThreshold(code: string): (t: real)
    ensures !IsMetric(code) ==> t == 3.0
    ensures 1.0 <= t <= 7.0
  {
    if code in CvTable then CvTable[code] else 3.0
  }

  /** `anomalyFactors[metric]`: the largest spike, in normal variations, and the trend slope. */
  datatype AnomalyFactor = AnomalyFactor(max: real, trend: real)

  const FactorTable: map<string, AnomalyFactor> := map[
    "bf" := AnomalyFactor(2.0, 0.4), "mm" := AnomalyFactor(1.5, 0.3),
    "bw" := AnomalyFactor(1.8, 0.4), "prot" := AnomalyFactor(1.5, 0.3),
    "min" := AnomalyFactor(1.5, 0.25), "wt" := AnomalyFactor(1.5, 0.2),
    "hr" := AnomalyFactor(2.0, 0.4), "o2" := AnomalyFactor(1.5, 0.2),
    "sys" := AnomalyFactor(2.0, 0.4), "dia" := AnomalyFactor(2.0, 0.4)]

  /** `anomalyFactors[metric] || { max: 1.5, trend: 0.3 }`. */
  function Factor(code: string): (f: AnomalyFactor)
    ensures !IsMetric(code) ==> f == AnomalyFactor(1.5, 0.3)
    ensures 1.5 <= f.max <= 2.0 && 0.2 <= f.trend <= 0.4
  {
    if code in FactorTable then FactorTable[code] else AnomalyFactor(1.5, 0.3)
  }

  /** Decimals kept in the window summary: 1 for weight and height, 0 for vitals, 2 otherwise. */
  function SummaryDecimals(code: string): (d: nat)
    ensures d <= 2
    ensures d == 0 <==> IsWholeMetric(code)
    ensures d == 1 <==> code == "wt" || code == Height
  {
    if code == "wt" || code == Height then 1
    else if IsWholeMetric(code) then 0
    else 2
  }
}
