/** The test case `testAllMetrics`, replayed against the model: the calls it
    makes, its loops, the lines it expects, and its line-by-line comparison of
    the serialized page. */
module Scenario {
  import opened Wrappers
  import opened Exposition
  import opened Accumulators
  import opened Serializer
  import opened Reporter

  // ---------------------------------------------------------------------------
  // The comparison loop

  /** `verifySerializedResult`: repeatedly takes the text before the first
      newline, compares it with the next expected line, and continues after
      the newline. Every comparison succeeds exactly when the complete lines
      of the page are a prefix of `expected`; text after the last newline is
      never compared, and neither are expected lines left over. Reading past
      the end of `expected` counts as a failed comparison. */
  method VerifySerializedResult(fullSerializedResult: string, expected: seq<string>) returns (ok: bool)
    ensures ok <==> CompleteLines(fullSerializedResult) <= expected
  {
    var text := fullSerializedResult;
    var i := 0;
    ok := true;
    ghost var compared: seq<string> := [];
    var pos := FindNewline(text);
    while pos.Some?
      invariant pos == FindNewline(text)
      invariant compared + CompleteLines(text) == CompleteLines(fullSerializedResult)
      invariant i == |compared|
      invariant ok <==> compared <= expected
      decreases |text|
    {
      var line := text[..pos.value];
      ExtendPrefix(compared, line, expected);
      if i >= |expected| || line != expected[i] {
        ok := false;
      }
      i := i + 1;
      ghost var rest := CompleteLines(text[pos.value + 1..]);
      assert CompleteLines(text) == [line] + rest;
      AppendAssociative(compared, [line], rest);
      compared := compared + [line];
      text := text[pos.value + 1..];
      pos := FindNewline(text);
    }
    assert compared == CompleteLines(fullSerializedResult);
  }

  /** One more compared line keeps the compared lines a prefix of `expected`
      exactly when it is the next expected line. */
  lemma ExtendPrefix(compared: seq<string>, line: string, expected: seq<string>)
    ensures compared + [line] <= expected <==>
      compared <= expected && |compared| < |expected| && expected[|compared|] == line
  {
    if compared + [line] <= expected {
      assert compared == (compared + [line])[..|compared|];
    }
    if compared <= expected && |compared| < |expected| && expected[|compared|] == line {
      assert compared + [line] == expected[..|compared| + 1];
    }
  }

  // ---------------------------------------------------------------------------
  // What the test observes

  /** The value the histogram loop records at iteration i. */
  function Recorded(i: nat): nat {
    if i < 20 then 20 else if i < 50 then 50 else 85
  }

  /** The values recorded by the first n iterations, in order. */
  function Records(n: nat): (h: seq<nat>)
    ensures |h| == n
  {
    seq(n, (i: nat) => Recorded(i))
  }

  function Repeat(k: nat, v: nat): (s: seq<nat>)
    ensures |s| == k && forall i :: 0 <= i < k ==> s[i] == v
  {
    seq(k, i => v)
  }

  lemma {:induction false} SumRepeat(k: nat, v: nat)
    ensures Sum(Repeat(k, v)) == k * v
    decreases k
  {
    if k > 0 {
      assert Repeat(k, v)[1..] == Repeat(k - 1, v);
      SumRepeat(k - 1, v);
    }
  }

  lemma {:induction false} CountAtMostRepeat(k: nat, v: nat, b: int)
    ensures CountAtMost(Repeat(k, v), b) == if v <= b then k else 0
    decreases k
  {
    if k > 0 {
      assert Repeat(k, v)[..k - 1] == Repeat(k - 1, v);
      CountAtMostRepeat(k - 1, v, b);
    }
  }

  /** The hundred recorded values: twenty 20s, thirty 50s, fifty 85s. */
  lemma RecordsRuns()
    ensures Records(100) == Repeat(20, 20) + Repeat(30, 50) + Repeat(50, 85)
  {
  }

  /** The running `sum` of the test ends at 20*20 + 30*50 + 50*85. */
  lemma RecordsSum()
    ensures Sum(Records(100)) == 6150
  {
    RecordsRuns();
    SumConcat(Repeat(20, 20) + Repeat(30, 50), Repeat(50, 85));
    SumConcat(Repeat(20, 20), Repeat(30, 50));
    SumRepeat(20, 20);
    SumRepeat(30, 50);
    SumRepeat(50, 85);
  }

  /** How many recorded values lie at or below b. */
  lemma RecordsAtMost(b: int)
    ensures CountAtMost(Records(100), b) ==
      (if 20 <= b then 20 else 0) + (if 50 <= b then 30 else 0) + (if 85 <= b then 50 else 0)
  {
    RecordsRuns();
    CountAtMostConcat(Repeat(20, 20) + Repeat(30, 50), Repeat(50, 85), b);
    CountAtMostConcat(Repeat(20, 20), Repeat(30, 50), b);
    CountAtMostRepeat(20, 20, b);
    CountAtMostRepeat(30, 50, b);
    CountAtMostRepeat(50, 85, b);
  }

  // ---------------------------------------------------------------------------
  // The labels and the lines the test expects

  /** The label set the reporter is built with. */
  function TestLabels(): seq<Label> {
    [Label("cluster", "test_cluster"), Label("worker", "test_worker_pod")]
  }

  /** The test's own text of that label set. */
  const LabelsSerialized: string := "cluster=\"test_cluster\",worker=\"test_worker_pod\""

  /** The reporter writes the label set exactly as the test spells it. */
  lemma TestLabelsText()
    ensures FormatLabels(TestLabels()) == LabelsSerialized
  {
    var ls := TestLabels();
    assert ls[..1] == [ls[0]];
    assert FormatLabels(ls) == FormatLabels(ls[..1]) + "," + LabelPair(ls[1]);
    ClusterPair();
    WorkerPair();
    JoinPairs();
  }

  lemma ClusterPair()
    ensures LabelPair(Label("cluster", "test_cluster")) == "cluster=\"test_cluster\""
  {
  }

  lemma WorkerPair()
    ensures LabelPair(Label("worker", "test_worker_pod")) == "worker=\"test_worker_pod\""
  {
  }

  lemma JoinPairs()
    ensures "cluster=\"test_cluster\"" + "," + "worker=\"test_worker_pod\"" == LabelsSerialized
  {
  }

  lemma TestLabelsNoNewline()
    ensures LabelsNoNewline(TestLabels())
  {
    var ls := TestLabels();
    forall i, k | 0 <= i < 2 && 0 <= k < |ls[i].key| ensures ls[i].key[k] != '\n' {}
    forall i, k | 0 <= i < 2 && 0 <= k < |ls[i].value| ensures ls[i].value[k] != '\n' {}
  }

  /** The lines expected after the first serialization, with the test's
      label text. */
  function Expected(labelsSerialized: string): seq<string> {
    [ "# TYPE test_key1 counter",
      "test_key1{" + labelsSerialized + "} 37",
      "# TYPE test_key2 gauge",
      "test_key2{" + labelsSerialized + "} 1015",
      "# TYPE test_key3 gauge",
      "test_key3{" + labelsSerialized + "} 0",
      "# TYPE test_key4 gauge",
      "test_key4{" + labelsSerialized + "} 0" ]
  }

  /** The histogram and summary lines expected after the second
      serialization; the keys are the histogram names with '.' replaced by
      '_', and `recordCount` and `sum` are the test's own counters. */
  function HistogramMetricsFormatted(histSummaryKey: string, histogramKey: string, labelsSerialized: string,
                                     recordCount: nat, sum: nat): seq<string>
  {
    [ "# TYPE " + histSummaryKey + " histogram",
      histSummaryKey + "_count{" + labelsSerialized + "} " + NatToString(recordCount),
      histSummaryKey + "_sum{" + labelsSerialized + "} " + NatToString(sum),
      histSummaryKey + "_bucket{" + labelsSerialized + ",le=\"10\"} 0",
      histSummaryKey + "_bucket{" + labelsSerialized + ",le=\"20\"} 20",
      histSummaryKey + "_bucket{" + labelsSerialized + ",le=\"30\"} 20",
      histSummaryKey + "_bucket{" + labelsSerialized + ",le=\"40\"} 20",
      histSummaryKey + "_bucket{" + labelsSerialized + ",le=\"50\"} 50",
      histSummaryKey + "_bucket{" + labelsSerialized + ",le=\"60\"} 50",
      histSummaryKey + "_bucket{" + labelsSerialized + ",le=\"70\"} 50",
      histSummaryKey + "_bucket{" + labelsSerialized + ",le=\"80\"} 50",
      histSummaryKey + "_bucket{" + labelsSerialized + ",le=\"90\"} 100",
      histSummaryKey + "_bucket{" + labelsSerialized + ",le=\"100\"} 100",
      histSummaryKey + "_bucket{" + labelsSerialized + ",le=\"+Inf\"} 100",
      "# TYPE test_histogram_key2 histogram",
      histogramKey + "_count{" + labelsSerialized + "} 1",
      histogramKey + "_sum{" + labelsSerialized + "} 10",
      histogramKey + "_bucket{" + labelsSerialized + ",le=\"10\"} 1",
      histogramKey + "_bucket{" + labelsSerialized + ",le=\"20\"} 1",
      histogramKey + "_bucket{" + labelsSerialized + ",le=\"30\"} 1",
      histogramKey + "_bucket{" + labelsSerialized + ",le=\"40\"} 1",
      histogramKey + "_bucket{" + labelsSerialized + ",le=\"50\"} 1",
      histogramKey + "_bucket{" + labelsSerialized + ",le=\"60\"} 1",
      histogramKey + "_bucket{" + labelsSerialized + ",le=\"70\"} 1",
      histogramKey + "_bucket{" + labelsSerialized + ",le=\"80\"} 1",
      histogramKey + "_bucket{" + labelsSerialized + ",le=\"90\"} 1",
      histogramKey + "_bucket{" + labelsSerialized + ",le=\"100\"} 1",
      histogramKey + "_bucket{" + labelsSerialized + ",le=\"+Inf\"} 1",
      "# TYPE test_histogram_key1_summary summary",
      histSummaryKey + "_summary_count{" + labelsSerialized + "} " + NatToString(recordCount),
      histSummaryKey + "_summary_sum{" + labelsSerialized + "} " + NatToString(sum),
      histSummaryKey + "_summary{" + labelsSerialized + ",quantile=\"0.5\"} 50",
      histSummaryKey + "_summary{" + labelsSerialized + ",quantile=\"0.99\"} 85",
      histSummaryKey + "_summary{" + labelsSerialized + ",quantile=\"1\"} 85" ]
  }

  // ---------------------------------------------------------------------------
  // The pages the reporter writes for the test

  /** The scalars after the first phase: test.key1 totals 10 + 11 + 15 + 1,
      test.key2 reports its last value 15 + 1000, the others report 0. */
  function ScalarEntries(): seq<Entry> {
    [ ScalarEntry("test.key1", COUNT, 37), ScalarEntry("test.key2", AVG, 1015),
      ScalarEntry("test.key3", SUM, 0), ScalarEntry("test.key4", RATE, 0) ]
  }

  lemma ScalarEntriesSection()
    ensures ScalarSection(ScalarEntries())
            == ScalarBlock("test.key1", COUNT, 37) + ScalarBlock("test.key2", AVG, 1015)
               + ScalarBlock("test.key3", SUM, 0) + ScalarBlock("test.key4", RATE, 0)
  {
    var es := ScalarEntries();
    var e1, e2, e3, e4 := [es[0]], [es[1]], [es[2]], [es[3]];
    assert es == e1 + e2 + e3 + e4;
    ScalarSectionConcat(e1 + e2 + e3, e4);
    ScalarSectionConcat(e1 + e2, e3);
    ScalarSectionConcat(e1, e2);
  }

  /** A scalar block whose name, type and value have the given texts. */
  lemma ScalarBlockIs(labels: seq<Label>, name: string, kind: StatType, value: nat,
                      key: string, kindText: string, valueText: string)
    requires labels != [] && Sanitize(name) == key && PrometheusType(kind) == kindText
    requires NatToString(value) == valueText
    ensures Texts(labels, ScalarBlock(name, kind, value))
            == ["# TYPE " + key + " " + kindText, key + "{" + FormatLabels(labels) + "} " + valueText]
  {
    ScalarBlockText(labels, name, kind, value);
  }

  /** The scalar section is the expected first page, line for line. */
  lemma ScalarLines(labels: seq<Label>)
    requires labels != []
    ensures Texts(labels, ScalarSection(ScalarEntries())) == Expected(FormatLabels(labels))
  {
    var b1, b2 := ScalarBlock("test.key1", COUNT, 37), ScalarBlock("test.key2", AVG, 1015);
    var b3, b4 := ScalarBlock("test.key3", SUM, 0), ScalarBlock("test.key4", RATE, 0);
    ScalarEntriesSection();
    TextsConcat(labels, b1 + b2 + b3, b4);
    TextsConcat(labels, b1 + b2, b3);
    TextsConcat(labels, b1, b2);
    Key1Lines(labels);
    Key2Lines(labels);
    Key3Lines(labels);
    Key4Lines(labels);
  }

  lemma Key1Lines(labels: seq<Label>)
    requires labels != []
    ensures var f := FormatLabels(labels);
      Texts(labels, ScalarBlock("test.key1", COUNT, 37)) == ["# TYPE test_key1 counter", "test_key1{" + f + "} 37"]
  {
    Key1Text(FormatLabels(labels));
    ScalarBlockIs(labels, "test.key1", COUNT, 37, "test_key1", "counter", "37");
  }

  lemma Key1Text(f: string)
    ensures Sanitize("test.key1") == "test_key1" && NatToString(37) == "37"
    ensures "# TYPE " + "test_key1" + " " + "counter" == "# TYPE test_key1 counter"
    ensures "test_key1" + "{" + f + "} " + "37" == "test_key1{" + f + "} 37"
  {
  }

  lemma Key2Lines(labels: seq<Label>)
    requires labels != []
    ensures var f := FormatLabels(labels);
      Texts(labels, ScalarBlock("test.key2", AVG, 1015)) == ["# TYPE test_key2 gauge", "test_key2{" + f + "} 1015"]
  {
    Key2Text(FormatLabels(labels));
    ScalarBlockIs(labels, "test.key2", AVG, 1015, "test_key2", "gauge", "1015");
  }

  lemma Key2Text(f: string)
    ensures Sanitize("test.key2") == "test_key2" && NatToString(1015) == "1015"
    ensures "# TYPE " + "test_key2" + " " + "gauge" == "# TYPE test_key2 gauge"
    ensures "test_key2" + "{" + f + "} " + "1015" == "test_key2{" + f + "} 1015"
  {
    Key2Number();
  }

  lemma Key2Number()
    ensures NatToString(1015) == "1015"
  {
    assert NatToString(101) == "101";
  }

  lemma Key3Lines(labels: seq<Label>)
    requires labels != []
    ensures var f := FormatLabels(labels);
      Texts(labels, ScalarBlock("test.key3", SUM, 0)) == ["# TYPE test_key3 gauge", "test_key3{" + f + "} 0"]
  {
    Key3Text(FormatLabels(labels));
    ScalarBlockIs(labels, "test.key3", SUM, 0, "test_key3", "gauge", "0");
  }

  lemma Key3Text(f: string)
    ensures Sanitize("test.key3") == "test_key3" && NatToString(0) == "0"
    ensures "# TYPE " + "test_key3" + " " + "gauge" == "# TYPE test_key3 gauge"
    ensures "test_key3" + "{" + f + "} " + "0" == "test_key3{" + f + "} 0"
  {
  }

  lemma Key4Lines(labels: seq<Label>)
    requires labels != []
    ensures var f := FormatLabels(labels);
      Texts(labels, ScalarBlock("test.key4", RATE, 0)) == ["# TYPE test_key4 gauge", "test_key4{" + f + "} 0"]
  {
    Key4Text(FormatLabels(labels));
    ScalarBlockIs(labels, "test.key4", RATE, 0, "test_key4", "gauge", "0");
  }

  lemma Key4Text(f: string)
    ensures Sanitize("test.key4") == "test_key4" && NatToString(0) == "0"
    ensures "# TYPE " + "test_key4" + " " + "gauge" == "# TYPE test_key4 gauge"
    ensures "test_key4" + "{" + f + "} " + "0" == "test_key4{" + f + "} 0"
  {
  }

  /** `test.histogram.key1`: ten buckets over [0, 100] and the percentiles
      50, 99 and 100. */
  function SummarySpec(): HistogramSpec {
    HistogramSpec(10, 0, 100, [50, 99, 100])
  }

  /** `test.histogram.key2`: the same buckets, no percentiles. */
  function HistogramOnlySpec(): HistogramSpec {
    HistogramSpec(10, 0, 100, [])
  }

  /** The finite bucket bounds 10, 20, ..., 100 of both histograms. */
  lemma TestBoundaries(spec: HistogramSpec)
    requires spec.bucketCount == 10 && spec.min == 0 && spec.max == 100
    ensures ValidGeometry(spec)
    ensures forall i :: 0 <= i < 10 ==> Boundary(spec, i) == 10 * (i + 1)
  {
    assert Width(spec) == 10;
  }

  /** The cumulative bucket counts of `test.histogram.key1` after the hundred
      records. */
  lemma SummaryCounts(acc: HistogramAcc)
    requires ValidGeometry(SummarySpec()) && Summarizes(SummarySpec(), Records(100), acc)
    ensures acc.buckets == [0, 20, 20, 20, 50, 50, 50, 50, 100, 100]
  {
    TestBoundaries(SummarySpec());
    forall i | 0 <= i < 10
      ensures acc.buckets[i] == CountAtMost(Records(100), 10 * (i + 1))
    {
    }
    RecordsAtMost(10); RecordsAtMost(20); RecordsAtMost(30); RecordsAtMost(40); RecordsAtMost(50);
    RecordsAtMost(60); RecordsAtMost(70); RecordsAtMost(80); RecordsAtMost(90); RecordsAtMost(100);
  }

  /** Every bucket of `test.histogram.key2` holds its one observation, 10. */
  lemma HistogramOnlyCounts(acc: HistogramAcc)
    requires ValidGeometry(HistogramOnlySpec()) && Summarizes(HistogramOnlySpec(), [10], acc)
    ensures acc.buckets == [1, 1, 1, 1, 1, 1, 1, 1, 1, 1]
  {
    TestBoundaries(HistogramOnlySpec());
    assert [10][..0] == [];
    forall i | 0 <= i < 10 ensures acc.buckets[i] == 1 {
      var b := 10 * (i + 1);
      assert acc.buckets[i] == CountAtMost([10], b);
      assert CountAtMost([10], b) == CountAtMost([], b) + 1;
    }
  }
}
