# PrometheusReporter, modelled in Dafny

This project models Presto's native-worker `PrometheusReporter` as its test
`testAllMetrics` exercises it.

- **Registration.** The reporter registers named metrics with a statistical
  kind. The scalar kinds are COUNT, AVG, SUM and RATE. A histogram is
  registered with a bucket count, a range and an optional list of
  percentiles.
- **Scalars.** Each scalar absorbs `addMetricValue` calls by its kind's
  rule:
  - COUNT adds the amount to a counter;
  - AVG keeps the last amount;
  - SUM and RATE stay at 0.
- **Histograms.** `addHistogramMetricValue` updates the equal-width buckets
  and the running sum and count. For a histogram with percentiles it also
  updates the sample set that the summary's quantiles are read from.
- **Serialization.** `getSerializedMetrics` renders the Prometheus text
  exposition format:
  - each scalar as a `# TYPE` line and one sample;
  - each histogram as `_count`, `_sum`, one `_bucket{le=…}` line per
    boundary and `le="+Inf"`;
  - for histograms with percentiles, a `_summary` block with
    `quantile="…"` lines.

  Every sample carries the reporter's label set. Names have `.` replaced by
  `_`.

The modules:

- `Accumulators`:
  - the kinds and their Prometheus types;
  - the scalar update rule and the value a history of amounts determines;
  - bucket geometry, cumulative counts, sorted samples;
  - the nearest-rank quantile;
  - the histogram accumulator, proved to summarize its history.
- `Exposition`:
  - decimal rendering and its parse-back;
  - name sanitizing;
  - label formatting;
  - quantile labels (`0.5`, `0.99`, `1`);
  - rendering lines with newlines and splitting a text back into its
    newline-terminated lines.
- `Serializer`: the entries of a snapshot, the line blocks of each kind, the
  three sections (scalars, histograms, summaries) and the page.
- `Reporter`: the `PrometheusReporter` class. Its fields are the ones the
  reporter updates in place. Its methods carry contracts, and its invariant
  `Valid` says every registered metric's state is what its accepted
  observations determine.
- `Scenario` and `HistogramScenario`:
  - the test's data: labels, keys, the 100 recorded values, the expected
    lines;
  - the test's `verifySerializedResult` lambda as a method;
  - lemmas computing the exact text of every expected line.
- `ReporterTest`: the test body, replayed against the class. Each phase is a
  method whose contract states the reporter's state after it. The whole
  test is `TestAllMetrics`, which proves that both comparisons succeed and
  that both pages read back exactly as the expected lines.

## Model

All source cells refer to
`presto-native-execution/presto_cpp/main/common/prometheus-metrics/PrometheusReporterTest.cpp`.

| member | source | states |
|---|---|---|
| Accumulators.PrometheusType | presto-native-execution/presto_cpp/main/common/prometheus-metrics/PrometheusReporterTest.cpp:63-69 | a kind is exported as `counter` exactly when it is COUNT, otherwise as `gauge` |
| Accumulators.SumSnoc | presto-native-execution/presto_cpp/main/common/prometheus-metrics/PrometheusReporterTest.cpp:92-103 | adding one value to a history adds it to the running sum |
| Accumulators.SumConcat | presto-native-execution/presto_cpp/main/common/prometheus-metrics/PrometheusReporterTest.cpp:92-103 | the sum of two consecutive runs of values is the sum of their sums |
| Accumulators.SumAtLeastEach | presto-native-execution/presto_cpp/main/common/prometheus-metrics/PrometheusReporterTest.cpp:52-58 | a running total is at least each amount that went into it |
| Accumulators.ScalarValue | presto-native-execution/presto_cpp/main/common/prometheus-metrics/PrometheusReporterTest.cpp:52-58 | a scalar with no updates is 0, and a COUNT is at least every amount added to it |
| Accumulators.ApplyScalar | presto-native-execution/presto_cpp/main/common/prometheus-metrics/PrometheusReporterTest.cpp:52-58 | one `addMetricValue` update lowers a scalar only when its kind is AVG |
| Accumulators.ApplyAllExtends | presto-native-execution/presto_cpp/main/common/prometheus-metrics/PrometheusReporterTest.cpp:52-58 | applying further updates in place to the value of a history gives the value of the extended history |
| Accumulators.ScalarValueByUpdates | presto-native-execution/presto_cpp/main/common/prometheus-metrics/PrometheusReporterTest.cpp:52-58 | applying every update in place, starting from 0, gives the value the whole history determines |
| Accumulators.ApplyScalarExtends | presto-native-execution/presto_cpp/main/common/prometheus-metrics/PrometheusReporterTest.cpp:52-58 | applying one `addMetricValue` update to the value a history determines gives the value of the history extended by that amount, for every kind |
| Accumulators.Width | presto-native-execution/presto_cpp/main/common/prometheus-metrics/PrometheusReporterTest.cpp:87-90 | the bucket width is positive and `bucketCount` widths span exactly [min, max] |
| Accumulators.BoundaryIncreasing | presto-native-execution/presto_cpp/main/common/prometheus-metrics/PrometheusReporterTest.cpp:114-123 | bucket boundaries strictly increase with their index |
| Accumulators.Boundaries | presto-native-execution/presto_cpp/main/common/prometheus-metrics/PrometheusReporterTest.cpp:114-123 | there are `bucketCount` boundaries, strictly ascending, the first above `min` and the last equal to `max` |
| Accumulators.CountAtMostBounded | presto-native-execution/presto_cpp/main/common/prometheus-metrics/PrometheusReporterTest.cpp:114-124 | no bucket counts more observations than were made |
| Accumulators.CountAtMostMonotone | presto-native-execution/presto_cpp/main/common/prometheus-metrics/PrometheusReporterTest.cpp:114-124 | a higher bound counts at least as many observations |
| Accumulators.CountAtMostConcat | presto-native-execution/presto_cpp/main/common/prometheus-metrics/PrometheusReporterTest.cpp:93-104 | the count at a bound over two runs of observations is the sum of the runs' counts |
| Accumulators.CountAtMostPermutation | presto-native-execution/presto_cpp/main/common/prometheus-metrics/PrometheusReporterTest.cpp:144-147 | the count at a bound does not depend on the order of the observations |
| Accumulators.InsertSorted | presto-native-execution/presto_cpp/main/common/prometheus-metrics/PrometheusReporterTest.cpp:95-101 | adding a sample keeps the sample set sorted, and the result is the old samples plus the new one as a multiset |
| Accumulators.Rank | presto-native-execution/presto_cpp/main/common/prometheus-metrics/PrometheusReporterTest.cpp:144-147 | the rank of a percentile among n samples lies in 1..n |
| Accumulators.RankIsCeiling | presto-native-execution/presto_cpp/main/common/prometheus-metrics/PrometheusReporterTest.cpp:144-147 | the rank is the least r with q·n ≤ 100·r, and 1 when q·n is 0 |
| Accumulators.RankOfExtremes | presto-native-execution/presto_cpp/main/common/prometheus-metrics/PrometheusReporterTest.cpp:144-147 | percentile 0 has rank 1 and percentile 100 has rank n |
| Accumulators.QuantileValue | presto-native-execution/presto_cpp/main/common/prometheus-metrics/PrometheusReporterTest.cpp:144-147 | a percentile has a value exactly when there are samples; the value is one of the samples, percentile 0 gives the first sorted sample and percentile 100 the last |
| Accumulators.RankValueUnique | presto-native-execution/presto_cpp/main/common/prometheus-metrics/PrometheusReporterTest.cpp:144-147 | a rank of a history determines the value at that rank |
| Accumulators.SortedRankValue | presto-native-execution/presto_cpp/main/common/prometheus-metrics/PrometheusReporterTest.cpp:144-147 | in a sorted sample set the r-th element is the value at rank r |
| Accumulators.NewHistogram | presto-native-execution/presto_cpp/main/common/prometheus-metrics/PrometheusReporterTest.cpp:87-90 | a newly registered histogram summarizes the empty history |
| Accumulators.Observe | presto-native-execution/presto_cpp/main/common/prometheus-metrics/PrometheusReporterTest.cpp:95-105 | one observation raises the count by one, keeps the number of buckets and keeps the samples sorted |
| Accumulators.ObserveSummarizes | presto-native-execution/presto_cpp/main/common/prometheus-metrics/PrometheusReporterTest.cpp:93-105 | an accumulator that summarizes a history summarizes it extended by the observed value: count, sum, cumulative bucket counts and samples all move together |
| Accumulators.Replay | presto-native-execution/presto_cpp/main/common/prometheus-metrics/PrometheusReporterTest.cpp:93-105 | the accumulator reached by a history of observations keeps the bucket count and sorted samples |
| Accumulators.ReplaySnoc | presto-native-execution/presto_cpp/main/common/prometheus-metrics/PrometheusReporterTest.cpp:93-105 | replaying a history plus one value is observing that value after replaying the history |
| Accumulators.ReplaySummarizes | presto-native-execution/presto_cpp/main/common/prometheus-metrics/PrometheusReporterTest.cpp:93-105 | the accumulator of any history summarizes it: count = length, sum = sum of raw values, bucket i = observations ≤ boundary i, samples a sorted permutation of the history |
| Accumulators.BucketsCumulative | presto-native-execution/presto_cpp/main/common/prometheus-metrics/PrometheusReporterTest.cpp:114-124 | bucket counts never decrease along the boundaries and none exceeds the `+Inf` count |
| Accumulators.LastBucketIsAtMostMax | presto-native-execution/presto_cpp/main/common/prometheus-metrics/PrometheusReporterTest.cpp:123 | the last finite bucket counts the observations ≤ max |
| Accumulators.QuantileIsRankValue | presto-native-execution/presto_cpp/main/common/prometheus-metrics/PrometheusReporterTest.cpp:144-147 | with a non-empty history, each configured percentile's value exists and is the history's value at the nearest rank |
| Exposition.DigitChar | presto-native-execution/presto_cpp/main/common/prometheus-metrics/PrometheusReporterTest.cpp:111-113 | a digit is rendered as the character with that digit's value |
| Exposition.NatToString | presto-native-execution/presto_cpp/main/common/prometheus-metrics/PrometheusReporterTest.cpp:111-113 | a sample value is rendered as non-empty decimal digits with no leading zero |
| Exposition.ParseNatToString | presto-native-execution/presto_cpp/main/common/prometheus-metrics/PrometheusReporterTest.cpp:111-113 | reading the rendered digits back gives the number |
| Exposition.Sanitize | presto-native-execution/presto_cpp/main/common/prometheus-metrics/PrometheusReporterTest.cpp:107-108 | the exported name is the metric name with every `.` replaced by `_` and nothing else changed (same length, no `.` left) |
| Exposition.QuantileLabelDenotes | presto-native-execution/presto_cpp/main/common/prometheus-metrics/PrometheusReporterTest.cpp:144-147 | the `quantile` label of percentile q is a decimal numeral, without trailing zeros, whose value is q/100 |
| Exposition.FormatLabelsNoNewline | presto-native-execution/presto_cpp/main/common/prometheus-metrics/PrometheusReporterTest.cpp:26-29 | a label set without newlines renders without newlines |
| Exposition.FormatLabelsCons | presto-native-execution/presto_cpp/main/common/prometheus-metrics/PrometheusReporterTest.cpp:26-29 | a label set renders as its `key="value"` pairs in order, separated by commas |
| Exposition.Render | presto-native-execution/presto_cpp/main/common/prometheus-metrics/PrometheusReporterTest.cpp:72-82 | a page is empty exactly when it has no lines, and otherwise ends with a newline |
| Exposition.FirstLine | presto-native-execution/presto_cpp/main/common/prometheus-metrics/PrometheusReporterTest.cpp:75-77 | a rendered page starts with its first line, followed by a newline |
| Exposition.FindNewline | presto-native-execution/presto_cpp/main/common/prometheus-metrics/PrometheusReporterTest.cpp:75 | `find("\n")` finds nothing exactly when there is no newline, and otherwise finds the first one |
| Exposition.FirstNewline | presto-native-execution/presto_cpp/main/common/prometheus-metrics/PrometheusReporterTest.cpp:75 | a newline with none before it is the one `find` returns |
| Exposition.CompleteLines | presto-native-execution/presto_cpp/main/common/prometheus-metrics/PrometheusReporterTest.cpp:76-81 | the lines the comparison loop extracts contain no newline |
| Exposition.CompleteLinesOfRender | presto-native-execution/presto_cpp/main/common/prometheus-metrics/PrometheusReporterTest.cpp:72-82 | splitting a rendered page at its newlines gives back exactly the rendered lines, and any unterminated tail is dropped |
| Serializer.SampleLineCarriesLabels | presto-native-execution/presto_cpp/main/common/prometheus-metrics/PrometheusReporterTest.cpp:64 | every sample line holds the reporter's label set in braces, followed by its own `le`/`quantile` label, then the value |
| Serializer.SectionsConcat | presto-native-execution/presto_cpp/main/common/prometheus-metrics/PrometheusReporterTest.cpp:109-151 | each of the three sections of a snapshot is the concatenation of its parts' sections |
| Serializer.ScalarTypeLines | presto-native-execution/presto_cpp/main/common/prometheus-metrics/PrometheusReporterTest.cpp:63-69 | every scalar has its `# TYPE` line with its Prometheus type in the scalar section |
| Serializer.HistogramTypeLines | presto-native-execution/presto_cpp/main/common/prometheus-metrics/PrometheusReporterTest.cpp:110-125 | every histogram has its `# TYPE … histogram` line in the histogram section |
| Serializer.SummaryTypeLines | presto-native-execution/presto_cpp/main/common/prometheus-metrics/PrometheusReporterTest.cpp:139 | every histogram with percentiles has its `# TYPE …_summary summary` line in the summary section |
| Serializer.Serialize | presto-native-execution/presto_cpp/main/common/prometheus-metrics/PrometheusReporterTest.cpp:62-147 | the serialized lines hold a `# TYPE` line for every metric with the right Prometheus type, and a summary `# TYPE` line for every histogram with percentiles |
| Serializer.Scalars | presto-native-execution/presto_cpp/main/common/prometheus-metrics/PrometheusReporterTest.cpp:62-70 | keeps exactly the scalar entries of a snapshot: an entry is in the result if and only if it is in the snapshot and is a scalar |
| Serializer.ScalarSectionLayout | presto-native-execution/presto_cpp/main/common/prometheus-metrics/PrometheusReporterTest.cpp:62-70 | the scalar section has two lines per scalar, in snapshot order: its `# TYPE` line with the Prometheus type, then its sample line with the value |
| Serializer.SummarySectionEmpty | presto-native-execution/presto_cpp/main/common/prometheus-metrics/PrometheusReporterTest.cpp:89-90 | no summary lines are written exactly when no histogram has percentiles |
| Serializer.HistogramBlockMeaning | presto-native-execution/presto_cpp/main/common/prometheus-metrics/PrometheusReporterTest.cpp:110-124 | a histogram block, for the history it summarizes, has 4 + bucketCount lines: its type, `_count` = number of observations, `_sum` = their sum, `_bucket` at each boundary = observations ≤ it, `+Inf` = number of observations |
| Serializer.SummaryBlockMeaning | presto-native-execution/presto_cpp/main/common/prometheus-metrics/PrometheusReporterTest.cpp:139-147 | a summary block has its type, `_count`, `_sum`, and one `quantile` line per percentile whose value is the history's nearest-rank value |
| Serializer.ScalarBlockText | presto-native-execution/presto_cpp/main/common/prometheus-metrics/PrometheusReporterTest.cpp:63-64 | a scalar's two lines as text |
| Serializer.HistogramBlockText | presto-native-execution/presto_cpp/main/common/prometheus-metrics/PrometheusReporterTest.cpp:110-124 | a histogram block's lines as text |
| Serializer.SummaryBlockText | presto-native-execution/presto_cpp/main/common/prometheus-metrics/PrometheusReporterTest.cpp:139-147 | a summary block's lines as text |
| Serializer.QuantileLineText | presto-native-execution/presto_cpp/main/common/prometheus-metrics/PrometheusReporterTest.cpp:144-147 | a quantile line as text, with the percentile written as a fraction |
| Serializer.SectionsOneLine | presto-native-execution/presto_cpp/main/common/prometheus-metrics/PrometheusReporterTest.cpp:72-82 | with newline-free names, no serialized line holds a newline |
| Serializer.PageReadsBack | presto-native-execution/presto_cpp/main/common/prometheus-metrics/PrometheusReporterTest.cpp:72-82 | the lines the test extracts from a page are exactly the serialized lines, in order |
| Serializer.Page | presto-native-execution/presto_cpp/main/common/prometheus-metrics/PrometheusReporterTest.cpp:72-82 | a page of a non-empty snapshot is non-empty and ends with a newline |
| Reporter.ConsistentRegisterScalar | presto-native-execution/presto_cpp/main/common/prometheus-metrics/PrometheusReporterTest.cpp:31-38 | registering a new scalar preserves the registry invariant |
| Reporter.ConsistentAddScalar | presto-native-execution/presto_cpp/main/common/prometheus-metrics/PrometheusReporterTest.cpp:52-58 | updating a scalar preserves the registry invariant |
| Reporter.ConsistentRegisterHistogram | presto-native-execution/presto_cpp/main/common/prometheus-metrics/PrometheusReporterTest.cpp:87-90 | registering a new histogram preserves the registry invariant |
| Reporter.ConsistentObserve | presto-native-execution/presto_cpp/main/common/prometheus-metrics/PrometheusReporterTest.cpp:93-105 | observing a histogram value preserves the registry invariant |
| Reporter.PrometheusReporter.constructor | presto-native-execution/presto_cpp/main/common/prometheus-metrics/PrometheusReporterTest.cpp:30 | a new reporter holds the given labels and no metrics |
| Reporter.PrometheusReporter.RegisterMetricExportType | presto-native-execution/presto_cpp/main/common/prometheus-metrics/PrometheusReporterTest.cpp:31-50 | a new name is recorded with its kind, value 0, no observations, at the end of the order; a taken name changes nothing; the invariant is kept |
| Reporter.PrometheusReporter.AddMetricValue | presto-native-execution/presto_cpp/main/common/prometheus-metrics/PrometheusReporterTest.cpp:52-58 | a registered scalar's value is updated by its kind's rule and the amount (1 when omitted) is appended to its history; an unknown name changes nothing; nothing else changes |
| Reporter.PrometheusReporter.RegisterHistogramMetricExportType | presto-native-execution/presto_cpp/main/common/prometheus-metrics/PrometheusReporterTest.cpp:86-90 | a new name gets the given geometry and percentiles and an empty accumulator, at the end of the order; a taken name or a geometry without buckets or range changes nothing |
| Reporter.PrometheusReporter.AddHistogramMetricValue | presto-native-execution/presto_cpp/main/common/prometheus-metrics/PrometheusReporterTest.cpp:93-105 | a registered histogram's accumulator observes the value and its history grows by it; an unknown name changes nothing; nothing else changes |
| Reporter.PrometheusReporter.Unpacked | presto-native-execution/presto_cpp/main/common/prometheus-metrics/PrometheusReporterTest.cpp:31-105 | a valid reporter lists each registered name once; each scalar's value and each histogram's accumulator is what its history determines |
| Reporter.PrometheusReporter.Snapshot | presto-native-execution/presto_cpp/main/common/prometheus-metrics/PrometheusReporterTest.cpp:61 | one entry per registered metric in registration order, a scalar entry exactly for scalars, each carrying its kind or spec and the state its history determines |
| Reporter.PrometheusReporter.GetSerializedMetrics | presto-native-execution/presto_cpp/main/common/prometheus-metrics/PrometheusReporterTest.cpp:106 | once anything is registered the page ends with a newline, and with newline-free names and labels cutting it at its newlines gives back every serialized line of the current snapshot, in order |
| Scenario.VerifySerializedResult | presto-native-execution/presto_cpp/main/common/prometheus-metrics/PrometheusReporterTest.cpp:72-82 | every comparison succeeds exactly when the newline-terminated lines of the text are a prefix of the expected lines |
| Scenario.ExtendPrefix | presto-native-execution/presto_cpp/main/common/prometheus-metrics/PrometheusReporterTest.cpp:78 | one more matching line extends a prefix exactly when the next expected line exists and equals it |
| Scenario.Records | presto-native-execution/presto_cpp/main/common/prometheus-metrics/PrometheusReporterTest.cpp:93-104 | the first n iterations record n values |
| Scenario.SumRepeat | presto-native-execution/presto_cpp/main/common/prometheus-metrics/PrometheusReporterTest.cpp:96-102 | k copies of v sum to k·v |
| Scenario.CountAtMostRepeat | presto-native-execution/presto_cpp/main/common/prometheus-metrics/PrometheusReporterTest.cpp:114-123 | at a bound, k copies of v count k if v is within it, otherwise 0 |
| Scenario.RecordsRuns | presto-native-execution/presto_cpp/main/common/prometheus-metrics/PrometheusReporterTest.cpp:93-104 | the loop records 20 × 20, then 30 × 50, then 50 × 85 |
| Scenario.RecordsSum | presto-native-execution/presto_cpp/main/common/prometheus-metrics/PrometheusReporterTest.cpp:92-104 | the recorded values sum to 6150 |
| Scenario.RecordsAtMost | presto-native-execution/presto_cpp/main/common/prometheus-metrics/PrometheusReporterTest.cpp:114-123 | the count of recorded values at any bound, by the three runs |
| Scenario.TestLabelsText | presto-native-execution/presto_cpp/main/common/prometheus-metrics/PrometheusReporterTest.cpp:26-29 | the reporter formats the test's label set exactly as the test's `labelsSerialized` |
| Scenario.ScalarBlockIs | presto-native-execution/presto_cpp/main/common/prometheus-metrics/PrometheusReporterTest.cpp:63-70 | a scalar's two lines from its exported name, type and value texts |
| Scenario.ScalarLines | presto-native-execution/presto_cpp/main/common/prometheus-metrics/PrometheusReporterTest.cpp:62-70 | the scalar section of the first snapshot reads as the eight expected lines |
| Scenario.Key1Lines | presto-native-execution/presto_cpp/main/common/prometheus-metrics/PrometheusReporterTest.cpp:63-64 | `test.key1` is written as a counter with value 37 |
| Scenario.Key2Lines | presto-native-execution/presto_cpp/main/common/prometheus-metrics/PrometheusReporterTest.cpp:65-66 | `test.key2` is written as a gauge with value 1015 |
| Scenario.Key3Lines | presto-native-execution/presto_cpp/main/common/prometheus-metrics/PrometheusReporterTest.cpp:67-68 | `test.key3` is written as a gauge with value 0 |
| Scenario.Key4Lines | presto-native-execution/presto_cpp/main/common/prometheus-metrics/PrometheusReporterTest.cpp:69-70 | `test.key4` is written as a gauge with value 0 |
| Scenario.TestBoundaries | presto-native-execution/presto_cpp/main/common/prometheus-metrics/PrometheusReporterTest.cpp:114-123 | 10 buckets over [0, 100] have the bounds 10, 20, …, 100 |
| Scenario.SummaryCounts | presto-native-execution/presto_cpp/main/common/prometheus-metrics/PrometheusReporterTest.cpp:114-123 | after the 100 recorded values the cumulative bucket counts are 0, 20, 20, 20, 50, 50, 50, 50, 100, 100 |
| Scenario.HistogramOnlyCounts | presto-native-execution/presto_cpp/main/common/prometheus-metrics/PrometheusReporterTest.cpp:128-137 | after the single value 10 every bucket counts 1 |
| HistogramScenario.SummaryBuckets | presto-native-execution/presto_cpp/main/common/prometheus-metrics/PrometheusReporterTest.cpp:114-123 | the ten bucket lines of the histogram with percentiles, as expected |
| HistogramScenario.HistogramOnlyBuckets | presto-native-execution/presto_cpp/main/common/prometheus-metrics/PrometheusReporterTest.cpp:128-137 | the ten bucket lines of the histogram without percentiles, as expected |
| HistogramScenario.Key1Name | presto-native-execution/presto_cpp/main/common/prometheus-metrics/PrometheusReporterTest.cpp:107 | `test.histogram.key1` is exported as `test_histogram_key1` |
| HistogramScenario.Key2Name | presto-native-execution/presto_cpp/main/common/prometheus-metrics/PrometheusReporterTest.cpp:108 | `test.histogram.key2` is exported as `test_histogram_key2` |
| HistogramScenario.SummaryQuantileValues | presto-native-execution/presto_cpp/main/common/prometheus-metrics/PrometheusReporterTest.cpp:144-147 | over the recorded values the 50th percentile is 50, the 99th is 85 and the 100th is 85 |
| HistogramScenario.Median | presto-native-execution/presto_cpp/main/common/prometheus-metrics/PrometheusReporterTest.cpp:144 | the 50th percentile line reads `quantile="0.5"} 50` |
| HistogramScenario.Percentile99 | presto-native-execution/presto_cpp/main/common/prometheus-metrics/PrometheusReporterTest.cpp:145-146 | the 99th percentile line reads `quantile="0.99"} 85` |
| HistogramScenario.Maximum | presto-native-execution/presto_cpp/main/common/prometheus-metrics/PrometheusReporterTest.cpp:147 | the 100th percentile line reads `quantile="1"} 85` |
| HistogramScenario.SummaryQuantiles | presto-native-execution/presto_cpp/main/common/prometheus-metrics/PrometheusReporterTest.cpp:144-147 | the three quantile lines of the summary, as expected |
| HistogramScenario.SummaryHistogramBlock | presto-native-execution/presto_cpp/main/common/prometheus-metrics/PrometheusReporterTest.cpp:110-124 | the block of the histogram with percentiles, after the recorded values, as expected |
| HistogramScenario.HistogramOnlyBlock | presto-native-execution/presto_cpp/main/common/prometheus-metrics/PrometheusReporterTest.cpp:125-138 | the block of the histogram without percentiles, after the value 10, as expected |
| HistogramScenario.SummaryBlockLines | presto-native-execution/presto_cpp/main/common/prometheus-metrics/PrometheusReporterTest.cpp:139-147 | the summary block, as expected |
| HistogramScenario.ScalarsThenHistograms | presto-native-execution/presto_cpp/main/common/prometheus-metrics/PrometheusReporterTest.cpp:148-151 | the page lists the scalar lines, then the histogram blocks, then the summary blocks |
| HistogramScenario.SecondPageLines | presto-native-execution/presto_cpp/main/common/prometheus-metrics/PrometheusReporterTest.cpp:106-151 | the second snapshot's lines are the first page's expected lines followed by all the histogram and summary lines |
| ReporterTest.TestKeysDistinct | presto-native-execution/presto_cpp/main/common/prometheus-metrics/PrometheusReporterTest.cpp:31-38 | the six metric names are pairwise distinct |
| ReporterTest.FirstPhaseValues | presto-native-execution/presto_cpp/main/common/prometheus-metrics/PrometheusReporterTest.cpp:52-58 | the counter fed 10, 11, 15 and a default 1 reports 37; the gauge fed 1010, 1011, 1015 reports 1015 |
| ReporterTest.SnapshotAt | presto-native-execution/presto_cpp/main/common/prometheus-metrics/PrometheusReporterTest.cpp:61 | a snapshot entry is the metric at that position of the order |
| ReporterTest.ScalarEntryAt | presto-native-execution/presto_cpp/main/common/prometheus-metrics/PrometheusReporterTest.cpp:61-70 | a scalar's snapshot entry carries its kind and current value |
| ReporterTest.HistogramEntryAt | presto-native-execution/presto_cpp/main/common/prometheus-metrics/PrometheusReporterTest.cpp:106 | a histogram's snapshot entry carries its spec and the accumulator its history determines |
| ReporterTest.FirstValues | presto-native-execution/presto_cpp/main/common/prometheus-metrics/PrometheusReporterTest.cpp:52-58 | after the first phase `test.key1` holds 37 and `test.key2` holds 1015 |
| ReporterTest.ScalarPrefix | presto-native-execution/presto_cpp/main/common/prometheus-metrics/PrometheusReporterTest.cpp:62-70 | the snapshot starts with the four scalar entries |
| ReporterTest.FirstSnapshot | presto-native-execution/presto_cpp/main/common/prometheus-metrics/PrometheusReporterTest.cpp:61-70 | the first snapshot is the four scalars with values 37, 1015, 0, 0 |
| ReporterTest.SecondSnapshot | presto-native-execution/presto_cpp/main/common/prometheus-metrics/PrometheusReporterTest.cpp:106 | the second snapshot is the four scalars followed by both histograms' replayed accumulators |
| ReporterTest.FirstPageText | presto-native-execution/presto_cpp/main/common/prometheus-metrics/PrometheusReporterTest.cpp:62-70 | the first snapshot's lines are the eight expected lines |
| ReporterTest.FirstPageReadsBack | presto-native-execution/presto_cpp/main/common/prometheus-metrics/PrometheusReporterTest.cpp:61-83 | the first page splits into exactly the eight expected lines |
| ReporterTest.SecondPageReadsBack | presto-native-execution/presto_cpp/main/common/prometheus-metrics/PrometheusReporterTest.cpp:106-152 | the second page splits into exactly the expected lines extended by the histogram and summary lines, with `_sum` 6150 |
| ReporterTest.RegisterFresh | presto-native-execution/presto_cpp/main/common/prometheus-metrics/PrometheusReporterTest.cpp:31-38 | registering an unused scalar name adds it with its kind, an empty history and a place at the end of the order |
| ReporterTest.RegisterScalars | presto-native-execution/presto_cpp/main/common/prometheus-metrics/PrometheusReporterTest.cpp:31-50 | the four registrations leave the four names in order with kinds COUNT, AVG, SUM, RATE, and the four kind checks succeed |
| ReporterTest.ObservePair | presto-native-execution/presto_cpp/main/common/prometheus-metrics/PrometheusReporterTest.cpp:54-55 | one iteration appends v to `test.key1`'s history and v + 1000 to `test.key2`'s |
| ReporterTest.ObserveScalars | presto-native-execution/presto_cpp/main/common/prometheus-metrics/PrometheusReporterTest.cpp:52-58 | after the loop and the default-amount call the histories are 10, 11, 15, 1 and 1010, 1011, 1015 |
| ReporterTest.RegisterHistograms | presto-native-execution/presto_cpp/main/common/prometheus-metrics/PrometheusReporterTest.cpp:84-90 | both histograms are registered after the scalars, with empty histories, and the scalar values are untouched |
| ReporterTest.ObserveRecord | presto-native-execution/presto_cpp/main/common/prometheus-metrics/PrometheusReporterTest.cpp:95-101 | one observation appends to the named histogram's history only |
| ReporterTest.ObserveRecords | presto-native-execution/presto_cpp/main/common/prometheus-metrics/PrometheusReporterTest.cpp:91-104 | the loop runs 100 times, gives the histogram the recorded values, leaves the other empty, and its `sum` is their sum |
| ReporterTest.FeedHistograms | presto-native-execution/presto_cpp/main/common/prometheus-metrics/PrometheusReporterTest.cpp:84-105 | after the histogram phase the histories are the 100 recorded values and the single 10, and `sum` is 6150 |
| ReporterTest.SecondPageIs | presto-native-execution/presto_cpp/main/common/prometheus-metrics/PrometheusReporterTest.cpp:106-151 | the reporter's second page splits into exactly the expected lines |
| ReporterTest.CheckScalarPage | presto-native-execution/presto_cpp/main/common/prometheus-metrics/PrometheusReporterTest.cpp:25-83 | the first half of the test: the kind checks and the first comparison succeed, and the page splits into exactly the expected lines |
| ReporterTest.CheckHistogramPage | presto-native-execution/presto_cpp/main/common/prometheus-metrics/PrometheusReporterTest.cpp:84-152 | the second half of the test: the second comparison succeeds and the page splits into exactly the extended expected lines |
| ReporterTest.TestAllMetrics | presto-native-execution/presto_cpp/main/common/prometheus-metrics/PrometheusReporterTest.cpp:25-153 | `testAllMetrics` passes: every `EXPECT_EQ` holds and both pages consist of exactly the expected lines |

## Left out

- The reporter is modelled from its observable behaviour in `testAllMetrics`; `PrometheusReporter.cpp`, `PrometheusReporter.h` and the prometheus-cpp library are outside the model. The kinds behave as the test observes them: COUNT becomes a counter that adds amounts, AVG a gauge that keeps the last amount, SUM and RATE gauges that stay at 0, and histograms have equal-width cumulative buckets plus a summary of nearest-rank percentiles.
- The expected `_sum` for `test.histogram.key1` is the test's running sum, 20·20 + 30·50 + 50·85 = 6150 (`PrometheusReporterTest.cpp:92-104,113`).
- Concurrency: the reporter is meant for many concurrent writers and a concurrent scraper. Calls are modelled as one sequential stream, so torn reads and locking are not captured.
- Sample values are naturals and the summary is exact. prometheus-cpp's floating-point values, its CKMS quantile estimator with error bounds and its sliding time window are not modelled. The model reports the exact nearest-rank value, which matches the test's expected quantiles.
- Reporter.PrometheusReporter.RegisterHistogramMetricExportType: requires every percentile to be at most 100. It also requires that an accepted range divides evenly into the buckets, so that every bucket bound is an integer. Fractional bounds, as the library would print them, are not modelled.
- Reporter.PrometheusReporter.AddMetricValue: amounts are unbounded naturals. The wrap-around of `size_t` and of the library's double-valued counters is not modelled.
- Reporter.PrometheusReporter.RegisterHistogramMetricExportType: its second argument is read as the number of buckets. With the range 0..100 used by the test, a count of 10 and a width of 10 give the same buckets, so the test cannot tell the two readings apart.
- Serializer.ScalarSection: scalars are written in registration order rather than grouped by type. The test registers one metric per kind, so it cannot tell the two orders apart.
- Reporter.PrometheusReporter.RegisterMetricExportType: re-registering a name is modelled as changing nothing (reported as `AlreadyRegistered` or `KindConflict`), because the test never re-registers.
- Reporter.PrometheusReporter.AddHistogramMetricValue: observations are naturals, so negative values are outside the model.
- Label values are written verbatim; Prometheus escaping of `\`, `"` and newlines is not modelled, since the test's labels contain none of them.
- An empty summary (no observations) reports `NaN` for its quantiles. This case is modelled but not exercised.
- Scenario.VerifySerializedResult: the test indexes `expected[i++]` without a bound check. The model treats a line beyond the end of `expected` as a failed comparison, where C++ has undefined behaviour. The lambda also ignores an unterminated tail and unread expected lines. The method states that weaker prefix property. `TestAllMetrics` separately proves that each page consists of exactly the expected lines.
- The gtest fixture's empty `SetUp` and `TearDown` (`PrometheusReporterTest.cpp:19-23`) and the unused `PrometheusSerializer` object (`PrometheusReporterTest.cpp:59-60`) have no effect and are not modelled.
- The HTTP endpoint that serves the page, and `SystemConnector.h`, are not part of this model.
