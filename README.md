# Health data generators: a verified model

This project models the core of two generators of synthetic health records
for fine-tuning a language model. One is the abnormal trend generator in
`create_abnormal_data.js`; the other is the normal data generator in
`create_normal_data.js`. Each record covers one person over a five-day
window. It holds the measured days (`dm`: body fat `bf`, muscle mass `mm`,
body water `bw`, protein `prot`, minerals `min`, weight `wt`, height `ht`,
heart rate `hr`, oxygen saturation `o2`, systolic `sys` and diastolic `dia`
pressure) and the window summary `wsum` (per-metric average, minimum and
maximum, rounded to the metric's decimals). It also holds the anomaly list
`anom`, the narrative comment `cmt.g` and three recommended dishes `fd`.

The abnormal generator draws a start date and personal baselines. It picks
one to three metrics and a pattern for each (trend, spike or oscillation),
and picks three to five of the five days. Each measured day is sampled
around the baselines, with the pattern injected into the picked metrics.
It then summarises the window and runs two detectors over every metric's
series: a point detector with a 2% gate and a variability detector that
reports the point furthest from the mean. When nothing was found, a
fallback ladder adds the largest percent deviation, or else a heart-rate
placeholder. When more than five were found, they are ranked and cut to
five and their comments re-matched. Duplicate comments are removed and
the narrative is assembled.

The normal generator draws one to five dates out of the window. It samples
each day narrowly around the baselines, summarises all eleven metrics, and
always reports no anomalies with a fixed sentence.

Every random draw is an explicit input in [0, 1). `Math.sqrt` and the five
values of `Math.sin(k * 2.5)` are inputs too. JavaScript numbers are exact
reals, and `toFixed` and `Math.round` are decimal roundings written out.
Dates are (year, month, day) triples on the proleptic Gregorian calendar.
Imperative parts of the source (the splice loops, the day loop, the series
pushes, the summary `forEach`, the detection and capping loops, the comment
re-matching) are methods with loops. Each is proved against a function
that specifies it, and the properties are lemmas about those functions.

Modules: `Numeric` (rounding, reductions, variance), `Text` (decimal
printing, `includes`, `join`, de-duplication), `Calendar`, `Catalog` (the
metric tables), `Sampling` (splice draws, sorts, dish choice), `Selection`,
`Summary`, `Injector`, `Detectors`, `Anomalies`, `Detection`,
`TrendAnalysis` (the day loop), `Resolution` (ladder and cap),
`TrendPipeline` (the abnormal generator end to end) and `NormalData`.

## Model

| member | source | states |
|---|---|---|
| Catalog.Unit | create_abnormal_data.js:40-50 | the unit is empty exactly for codes outside the ten metrics, `kg` exactly for `mm`/`wt`, `mmHg` exactly for `sys`/`dia` |
| Catalog.KoreanName | create_abnormal_data.js:25-37 | every metric has a non-empty display name |
| Catalog.NormalVariation | create_abnormal_data.js:53-64 | a normal variation exists exactly for the ten metrics and lies in [0.1, 8] |
| Catalog.SignificanceThreshold | create_abnormal_data.js:303-317 | an unknown code falls back to 2.5; every threshold is in [2, 3] |
| Catalog.CvThreshold | create_abnormal_data.js:331-345 | an unknown code falls back to 3.0; every threshold is in [1, 7] |
| Catalog.Factor | create_abnormal_data.js:257-270 | an unknown code falls back to {max 1.5, trend 0.3}; max in [1.5, 2], trend in [0.2, 0.4] |
| Catalog.SummaryDecimals | create_abnormal_data.js:558-565 | 1 decimal exactly for `wt`/`ht`, 0 exactly for `hr`/`o2`/`sys`/`dia`, else 2 |
| Calendar.ValidateDate | create_abnormal_data.js:240-251 | true exactly when start ≤ date ≤ end in calendar order (both ends included) |
| Calendar.DateKeyOrder | create_normal_data.js:83 | the `YYYYMMDD` key that the string sort compares orders dates exactly as the calendar does, and equal keys mean equal dates |
| Calendar.AddDays | create_abnormal_data.js:448-451 | adding days to a valid date gives a valid date |
| Calendar.AddDaysStrictlyIncreasing | create_abnormal_data.js:448-451 | more added days give a strictly later date |
| Numeric.RandomInRangeBounds | create_abnormal_data.js:19-22 | `randomInRange(lo, hi, d)` lies in [lo, hi] widened by half a unit of the d-th decimal |
| Numeric.DrawIndex | create_abnormal_data.js:400 | `Math.floor(Math.random() * n)` is a valid index below n |
| Numeric.ToFixedMonotone | create_abnormal_data.js:568-572 | `toFixed` rounding preserves order |
| Numeric.ToFixedClose | create_abnormal_data.js:568 | `toFixed(d)` moves a value by at most half a unit of the d-th decimal |
| Numeric.ToFixedWhole | create_abnormal_data.js:460-463 | `toFixed(0)` is whole, so the `Math.round` after it changes nothing |
| Numeric.ToFixedIdempotent | create_normal_data.js:155-159 | `toFixed(d)` of a value already rounded to d decimals returns it |
| Numeric.MeanBetweenMinMax | create_abnormal_data.js:568-572 | the mean of a non-empty series lies between its minimum and maximum |
| Numeric.ConstantSeries | create_abnormal_data.js:326-328 | a constant series has that constant as mean and zero variance |
| Injector.GenerateRealisticAnomaly | create_abnormal_data.js:255-298 | a value is produced exactly for the ten metrics (an unknown code gives `NaN` in the source) |
| Injector.TrendOffsetExact | create_abnormal_data.js:283-288 | the trend adds exactly ±nv × dayIndex × trend factor; the day normalisation cancels |
| Injector.SpikeOffsetBounds | create_abnormal_data.js:273-282 | when the gate draw exceeds 0.85 the spike adds a magnitude in [nv, nv × max] (up to two-decimal rounding), upwards exactly when the direction draw exceeds 0.5 and downwards otherwise |
| Injector.SpikeInjectOffset | create_abnormal_data.js:273-282 | the same direction and magnitude facts for any normal variation and factor pair in the catalog's ranges |
| Injector.NoiseOffsetBounds | create_abnormal_data.js:273-297 | a spike that does not fire, or an unknown pattern, stays within ±nv of the base up to rounding |
| Injector.OscillationIsDeterministic | create_abnormal_data.js:289-294 | the oscillation draws nothing and stays within 1.5 × nv of the base |
| Injector.InjectionBounded | create_abnormal_data.js:255-298 | every pattern moves the base by at most 2 × nv plus rounding |
| Injector.InjectBounded | create_abnormal_data.js:270-297 | the same 2 × nv bound for any normal variation and factor pair in the catalog's ranges, pattern by pattern |
| Injector.LookupInRange | create_abnormal_data.js:256-269 | every metric has a normal variation in [0.1, 8] (the table at lines 53-64) and factors with max in [1.5, 2] and trend in [0.2, 0.4] |
| Detectors.DetectSignificantDeviation | create_abnormal_data.js:301-320 | only the ten metrics can be flagged |
| Detectors.DeviationAtThresholdNotFlagged | create_abnormal_data.js:319 | a deviation equal to nv × threshold is not flagged; the comparison is strict |
| Detectors.DeviationMonotone | create_abnormal_data.js:319 | a value further from the average than a flagged one is flagged too |
| Detectors.FlaggedIsFarFromAverage | create_abnormal_data.js:301-320 | a flagged value is more than 2 × nv from the average |
| Detectors.HeartRateExampleNotFlagged | create_abnormal_data.js:301-320 | heart rate 85 against an average of 77.33 is not flagged (limit 16) |
| Detectors.DetectExcessiveVariability | create_abnormal_data.js:323-349 | fewer than three values are never flagged; a flagged series is of a known metric with a non-zero mean |
| Detectors.CvExceedsIff | create_abnormal_data.js:329-348 | for a positive mean, cv > expectedCV exactly when stdDev > nv × threshold |
| Detectors.VariabilityIsStdDevThreshold | create_abnormal_data.js:323-349 | for a positive mean and any true square root of the variance, the detector answers stdDev > nv × threshold |
| Detectors.ConstantSeriesNotFlagged | create_abnormal_data.js:323-349 | a constant series of a non-negative value is never flagged (a negative constant series is flagged, since its expected coefficient is negative) |
| Detectors.NegativeConstantSeriesFlagged | create_abnormal_data.js:323-349 | a constant series of a negative value of a known metric, with three or more points, is flagged: the expected coefficient is negative and the zero coefficient exceeds it |
| Sampling.DrawWithoutReplacement | create_abnormal_data.js:399-403 | the splice loop returns `Drawn(pool, count, draws)`, of length min(count, pool size), a sub-multiset of the pool, so its items come from the pool and are distinct when the pool's are |
| Sampling.SortByKeyProperties | create_abnormal_data.js:436 | the ascending sort is sorted and a permutation of its input |
| Sampling.FoodRecommendations | create_normal_data.js:264-268 | three dishes, or the whole pool when it is smaller |
| Sampling.FoodRecommendationsFromPool | create_normal_data.js:264-271 | the dishes come from the pool, are distinct when the pool is, and are exactly three from a pool of three or more |
| Selection.ChooseVariationsCount | create_abnormal_data.js:384-392 | one to three metrics vary, and exactly one when the draw is below 0.5 |
| Selection.ChoosePattern | create_abnormal_data.js:407-418 | the pattern code is 0, 1 or 2 |
| Selection.DaysCount | create_abnormal_data.js:421 | three to five measured days |
| Selection.MeasurementDays | create_normal_data.js:63 | one to five measured dates |
| Selection.StartDateOf | create_abnormal_data.js:359-363 | the start is a valid date in 2022..2025 on day 1..28 |
| Selection.SelectMetrics | create_abnormal_data.js:394-403 | the varied metrics are `variationsCount` distinct members of the ten |
| Selection.SelectDays | create_abnormal_data.js:421-436 | the measured offsets are `daysCount` values in 0..4, strictly increasing (so distinct), equal to the sorted draw |
| Selection.SelectDates | create_normal_data.js:63-83 | `measurementDays` dates out of the five candidates, strictly increasing, equal to the sorted draw |
| Selection.CandidateDatesDistinct | create_normal_data.js:66-70 | the five candidate dates are valid and pairwise different |
| Summary.ColumnStatsOrdered | create_abnormal_data.js:556-573 | after rounding, min ≤ avg ≤ max for any non-empty column and any number of decimals |
| Summary.ConstantColumnStats | create_normal_data.js:108 | a column that is constant has rounded avg = min = max = the rounded constant |
| Summary.ComputeSummary | create_abnormal_data.js:556-573 | the `forEach` fills avg/min/max for exactly the listed metrics, each agreeing with the rounded mean/min/max of its column and ordered min ≤ avg ≤ max |
| Anomalies.RenderMentions | create_abnormal_data.js:611 | every comment contains its record's `M월 D일` token and metric name |
| Anomalies.RankSortProperties | create_abnormal_data.js:783-804 | the priority sort is a permutation in which no later record outranks an earlier one (priority, then percent change or cv) |
| Anomalies.CapProperties | create_abnormal_data.js:781-807 | capping keeps min(n, 5) records, all from the input, and no dropped record outranks a kept one |
| Anomalies.FirstMention | create_abnormal_data.js:829-837 | the index found is the first comment mentioning both the date token and the metric name, or none mentions them |
| Anomalies.FindMention | create_abnormal_data.js:826-838 | the inner loop with its `break` returns the first mentioning comment |
| Anomalies.RematchedMentions | create_abnormal_data.js:821-849 | the comment kept or rebuilt for a record always mentions it |
| Anomalies.RematchedFromRendered | create_abnormal_data.js:821-849 | when every record pushed its own comment, the re-matched comment is one of them |
| Anomalies.RebuildComments | create_abnormal_data.js:821-853 | the rebuilt list holds one comment per kept record, in order |
| Anomalies.RematchAllMentions | create_abnormal_data.js:821-853 | the k-th rebuilt comment mentions the k-th kept record |
| Anomalies.NarrativeMentionsEveryComment | create_abnormal_data.js:857-874 | with records present, the narrative contains every comment |
| Anomalies.NarrativeDeterminesCount | create_abnormal_data.js:865-874 | the narrative determines the number of records it announces |
| Anomalies.OpeningIsNotFixedSentence | create_abnormal_data.js:866-874 | a narrative with records never equals the no-anomaly sentence |
| Text.ParseNatToString | create_abnormal_data.js:871 | the printed count reads back as the count |
| Text.DedupDistinct | create_abnormal_data.js:857 | `[...new Set(comments)]` has no duplicates |
| Text.DedupSameElements | create_abnormal_data.js:857 | de-duplication keeps exactly the elements of its input |
| Text.DedupKeepsFirstOccurrenceOrder | create_abnormal_data.js:857 | de-duplicated entries appear in the order of their first occurrence |
| Text.DedupOfDistinct | create_abnormal_data.js:857 | a list without duplicates is unchanged |
| Text.JoinContainsParts | create_abnormal_data.js:873 | the joined string contains every part |
| Detection.FormatValueClose | create_abnormal_data.js:593-595 | the printed value is within half a unit of its last decimal of the measured one |
| Detection.PercentChangeNonNegative | create_abnormal_data.js:600-602 | the directional rounded percent change is never negative for a positive average |
| Detection.PercentChangeGate | create_abnormal_data.js:604 | passing the 2% gate means the value is at least 1.5% of the average away from it |
| Detection.PointCheckRecorded | create_abnormal_data.js:586-627 | a recorded point lies in the window, is flagged by the deviation detector, has percent change ≥ 2, and is 급증 exactly when value > avg |
| Detection.PointCheckSkipped | create_abnormal_data.js:586-606 | a point outside the window, not flagged, or under 2% gives no record |
| Detection.PointPassRecords | create_abnormal_data.js:580-629 | every record of the point pass satisfies the three recording conditions and its type matches the direction |
| Detection.DetectInSeries | create_abnormal_data.js:585-627 | the `forEach` over one metric's points returns exactly the specified records of that series, each well formed, with its rendered comment pushed beside it |
| Detection.DetectPoints | create_abnormal_data.js:580-629 | the pass over all metrics returns the specified records and pushes exactly one rendered comment per record |
| Detection.FirstFurthestIsFirstMax | create_abnormal_data.js:646-658 | the reported point is at maximal distance from the mean, and strictly further than every earlier point |
| Detection.FindFurthest | create_abnormal_data.js:646-658 | the scan with `deviation > maxDeviation` returns that first furthest point |
| Detection.VariabilityPassRecords | create_abnormal_data.js:634-684 | a variability record has a flagged metric with at least three points, is dated at its first furthest point, and lies in the original window |
| Detection.DetectVariability | create_abnormal_data.js:634-684 | the pass returns the specified records with one rendered comment each |
| Detection.LargestDeviation | create_abnormal_data.js:687-723 | the fallback scan returns the ladder pick: maximal percent deviation, first in scan order among equals |
| Detection.LadderPickUnique | create_abnormal_data.js:687-723 | the ladder pick is unique |
| Detection.LadderAlwaysPicks | create_abnormal_data.js:687-723 | with positive averages and a positive value, the scan always picks a pair |
| Detection.FallbackDay | create_abnormal_data.js:736-739 | the fallback record's `day` is its position in the valid records plus one |
| Detection.PlaceholderRise | create_abnormal_data.js:751-779 | the placeholder is a heart-rate 급증 of 5% on day 1, with value within 0.5 of 1.05 × avg |
| Detection.EarliestIsMinimum | create_abnormal_data.js:535-539 | the actual start is a record date no later than any other |
| Detection.LatestIsMaximum | create_abnormal_data.js:541-545 | the actual end is a record date no earlier than any other |
| Detection.InWindowMembers | create_abnormal_data.js:548 | the filter keeps exactly the records whose date passes `validateDate` |
| Detection.ValidDailyIsAll | create_abnormal_data.js:535-548 | filtering by the records' own earliest and latest dates keeps every record |
| TrendAnalysis.SampleAll | create_abnormal_data.js:454-463 | each metric's first value is the sample around its baseline |
| TrendAnalysis.InjectPicked | create_abnormal_data.js:466-502 | each picked metric gets its pattern injected; the others keep their sample |
| TrendAnalysis.NormalizeAll | create_abnormal_data.js:505-514 | every value is rounded again to its metric's decimals |
| TrendAnalysis.MeasureDay | create_abnormal_data.js:454-517 | the day's record holds the ten metric values of the day and the height |
| TrendAnalysis.DayValueNearBaseline | create_abnormal_data.js:454-514 | a recorded value stays within 3 × nv of its baseline, plus rounding |
| TrendAnalysis.BaselineBounds | create_abnormal_data.js:372-380 | every baseline lies in its range up to rounding |
| TrendAnalysis.DayValuePositive | create_abnormal_data.js:372-514 | every recorded value is at least 0.5, so no average is zero |
| TrendAnalysis.IndexOfSortedDay | create_abnormal_data.js:482 | `selectedDays.indexOf(dayOffset)` is the day's own position |
| TrendAnalysis.AppendDay | create_abnormal_data.js:520-531 | each metric's series gains exactly one point for the day, numbered offset + 1 |
| TrendAnalysis.MeasureRecord | create_abnormal_data.js:448-517 | the loop body produces the specified record for the k-th measured day |
| TrendAnalysis.MeasureDays | create_abnormal_data.js:439-532 | the day loop produces one record per measured day and series that match the records |
| TrendPipeline.DrawDays | create_abnormal_data.js:421-436 | three to five strictly increasing offsets in 0..4 |
| TrendPipeline.DrawChoices | create_abnormal_data.js:384-419 | distinct varied metrics with one pattern each, drawn as specified |
| TrendPipeline.PlanDays | create_abnormal_data.js:355-436 | every field of the plan is fixed by the draws (`PlannedFrom`): start, height, baselines, the drawn metrics and their patterns, the sorted drawn days, and the per-day draws; and the plan satisfies the day loop's needs |
| TrendPipeline.DayRecordsMeasuredWell | create_abnormal_data.js:439-532 | records are dated inside the window in strictly increasing order, carry the same height, and every value is at least 0.5 |
| TrendPipeline.AveragesPositive | create_abnormal_data.js:556-573 | every metric's average is positive |
| TrendPipeline.DetectAll | create_abnormal_data.js:580-684 | the found records are the point pass followed by the variability pass, each with its own comment |
| TrendPipeline.ResolveWindow | create_abnormal_data.js:686-854 | the stage equals `Resolve` for the ladder's pick; it leaves one to five well-formed records, each with a comment mentioning it; with none found (and a positive first value and positive averages) the one record is the ladder's largest percent deviation; one to five found are kept with their own comments; more than five are cut to `RankSort(found)[..5]` |
| TrendPipeline.SummariseWindow | create_abnormal_data.js:556-573 | the summary of the measured records agrees with every metric's column, is ordered, and has positive averages with a positive first value, so the ladder always picks |
| TrendPipeline.AnalyseWindow | create_abnormal_data.js:535-854 | ordered summary, both passes as specified over the actual window, then (`ResolvedFrom`) the ladder record when nothing was found, the found records when one to five, `RankSort(found)[..5]` beyond; the comments (`CommentedFrom`) are the ladder record's own rendering, the comments the passes pushed, or the kept five's comments re-matched by `includes` against them; one to five records each with a comment mentioning it |
| TrendPipeline.Narrate | create_abnormal_data.js:857-874 | the de-duplicated comments are distinct; the narrative is the fixed sentence with no records, otherwise the opening, the count and the joined comments, and it mentions every record |
| TrendPipeline.RunPlan | create_abnormal_data.js:439-874 | `Analysed`: the records are exactly the plan's `DayRecords` inside the window, the summary agrees with them (ordered, positive), the series match them, the found records are the two passes over those series, the final 1..5 records are `ResolvedFrom` the found ones with their comments `CommentedFrom` them, the narrative's comments are `Dedup` of those comments, and the narrative announces their number over them and mentions each |
| TrendPipeline.GenerateHealthTrendAnalysis | create_abnormal_data.js:352-874 | the record of one run: the plan is the one the draws fix (`PlannedFrom`), the run is `Analysed` from that plan (records = the plan's `DayRecords`, found = both passes over their series, final 1..5 records = ladder record, pass-through or top five of the ranking, their comments = the ladder's rendering, the pushed comments or the re-matched ones, narrative = opening, count and `Dedup` of those comments, mentioning each), start as drawn and end five days later, 3..5 records, and dishes from the pool |
| Resolution.FallBack | create_abnormal_data.js:687-779 | the ladder pick when the window is non-empty, the placeholder only when the scan picks nothing |
| Resolution.ResolveAnomalies | create_abnormal_data.js:686-854 | the stage computes the ladder, the pass-through or the cap as specified |
| Resolution.ResolveBounds | create_abnormal_data.js:686-854 | the stage always leaves 1..5 well-formed records with exactly one mentioning comment each |
| Resolution.ResolveKeepsFound | create_abnormal_data.js:781-854 | found records are kept as they are when there are at most five; more are cut to five that no dropped record outranks |
| Resolution.LadderPreemptsPlaceholder | create_abnormal_data.js:687-779 | with positive averages, an empty detection yields exactly the ladder's record with a non-negative percent change, never the placeholder |
| Resolution.NarrativeMentionsAnomalies | create_abnormal_data.js:857-874 | the narrative mentions every record's date token and metric name |
| NormalData.NormalRange | create_normal_data.js:35-60 | every baseline range is non-empty with at most 2 decimals |
| NormalData.DailySpread | create_normal_data.js:90-99 | the daily spreads are positive and at most 2 |
| NormalData.NormalValueNearBase | create_normal_data.js:90-99 | a day's value lies within base ± spread up to rounding, and the vitals are whole |
| NormalData.NormalValueInBand | create_normal_data.js:52-99 | a day's value lies in its baseline range widened by the spread and two roundings |
| NormalData.MeasureNormalDays | create_normal_data.js:86-115 | one record per selected date, in date order |
| NormalData.DatesInWindow | create_normal_data.js:44-83 | every measured date lies between the start and the start plus four days |
| NormalData.RecordsInBand | create_normal_data.js:88-115 | every value of every record lies in its band |
| NormalData.HeightSummary | create_normal_data.js:108-160 | the height's avg, min and max all equal the drawn height |
| NormalData.SummarizeNormal | create_normal_data.js:117-160 | the summary covers all eleven metrics, agrees with the columns, is ordered, and gives the height itself for `ht` |
| NormalData.MeasureNormalWindow | create_normal_data.js:34-115 | `DrawnWindow`: the dates are the sorted draw of `measurementDays` candidate dates and the records are `NormalRecords` of those dates, the drawn baselines, the drawn height and the samples; `NormalWindow`: 1..5 strictly increasing dates inside the window, eleven values per date, constant height, every value in its band |
| NormalData.GenerateHealthDataSet | create_normal_data.js:32-287 | the whole data set: window start..start+4, the records those of the sorted drawn dates measured from their samples (`DrawnWindow`), ordered dates, bands, ordered summary with `ht` equal to the height, empty `anom`, the fixed comment, and the dishes |

## Left out

- Date library and time zones: `new Date`, `setDate`, `toISOString`, `getMonth`/`getDate` become calendar triples, read in UTC. The source parses the start as local time but prints the end and every record date (create_abnormal_data.js:451) with `toISOString`, in UTC. East of UTC every record is therefore dated one day before its local day, so a record on day offset 0 falls before the local `startDate`; the variability pass checks the furthest point against `startDate` (create_abnormal_data.js:661) and drops such a point there, where the model keeps it.
- Floating point: all arithmetic is on exact reals; `toFixed` is modelled as round half away from zero on the exact value, which can differ from the binary result at exact halves.
- `Math.sqrt` and `Math.sin` are inputs; only the printed coefficient of variation uses the square root, and the detection decision is proved equivalent for any true square root.
- Randomness: every `Math.random()` draw is an input in [0, 1); the shuffle `sort(() => 0.5 - Math.random())` is any permutation of the dish list.
- I/O, JSON serialisation, the prompt template, the driver loops and the `catch` block's canned record (create_abnormal_data.js:896-975) are not modelled.
- Dead code: `generateRandomDate`, and the trend kinds 상승추세/하락추세 that the ranking and re-matching mention but no detector produces.
- The contents of the two dish lists are data; the dish choice is modelled over any list.
- Anomalies.RankSortProperties: the comparator tests `percentChange`/`cv` for truthiness, so a tie-break on a zero value returns 0 in the source; the model compares the magnitudes directly, which differs only when one of them is zero.
- Sampling.SortByKeyProperties: the result of the library sort is modelled, not its algorithm.
- Summary.ComputeSummary: requires at least one record; both generators always have one (three or more, and one or more).
- Detection.Placeholder: unreachable in the abnormal generator, as Resolution.LadderPreemptsPlaceholder shows; it is modelled as written.
- Detection.VariabilityPassRecords: the variability pass checks the original window, not the actual one, as the code does.
- Injector.GenerateRealisticAnomaly: the trend direction is drawn on every call, so a trend can change sign from day to day, as the code does.
- TrendPipeline.GenerateHealthTrendAnalysis: the window end is the start plus five days, as the code computes it (a comment there speaks of four).
- TrendPipeline.GenerateHealthTrendAnalysis: the no-anomaly sentence cannot occur, since the list always has at least one record; Anomalies.Narrative still models it.
- NormalData.GenerateHealthDataSet: the window end is the start plus four days, as the code computes it.
