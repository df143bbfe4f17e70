/** `testAllMetrics` replayed against the reporter model: the registrations, the
    observation loops, the two serializations and their line-by-line
    comparison with the lines the test expects. */
module ReporterTest {
  import opened Exposition
  import opened Accumulators
  import opened Serializer
  import opened Reporter
  import opened Scenario
  import opened HistogramScenario

  /** The six metric names the test uses: four scalars, the histogram with
      percentiles and the one without. */
  datatype Keys = Keys(key1: string, key2: string, key3: string, key4: string,
                       histSummaryKey: string, histogramKey: string)

  function TestKeys(): Keys {
    Keys("test.key1", "test.key2", "test.key3", "test.key4", "test.histogram.key1", "test.histogram.key2")
  }

  predicate Distinct(ks: Keys) {
    && ks.key1 != ks.key2 && ks.key1 != ks.key3 && ks.key1 != ks.key4
    && ks.key1 != ks.histSummaryKey && ks.key1 != ks.histogramKey
    && ks.key2 != ks.key3 && ks.key2 != ks.key4 && ks.key2 != ks.histSummaryKey && ks.key2 != ks.histogramKey
    && ks.key3 != ks.key4 && ks.key3 != ks.histSummaryKey && ks.key3 != ks.histogramKey
    && ks.key4 != ks.histSummaryKey && ks.key4 != ks.histogramKey
    && ks.histSummaryKey != ks.histogramKey
  }

  /** The test's six names are pairwise distinct. */
  lemma TestKeysDistinct()
    ensures Distinct(TestKeys())
  {
    assert "test.key1"[8] != "test.key2"[8];
    assert "test.key1"[8] != "test.key3"[8];
    assert "test.key1"[8] != "test.key4"[8];
    assert "test.key2"[8] != "test.key3"[8];
    assert "test.key2"[8] != "test.key4"[8];
    assert "test.key3"[8] != "test.key4"[8];
    assert "test.histogram.key1"[18] != "test.histogram.key2"[18];
  }

  function ScalarNames(ks: Keys): seq<string> {
    [ks.key1, ks.key2, ks.key3, ks.key4]
  }

  function Histograms(ks: Keys): seq<string> {
    [ks.histSummaryKey, ks.histogramKey]
  }

  function ScalarKinds(ks: Keys): map<string, StatType> {
    map[ks.key1 := COUNT, ks.key2 := AVG, ks.key3 := SUM, ks.key4 := RATE]
  }

  function HistogramSpecs(ks: Keys): map<string, HistogramSpec> {
    map[ks.histSummaryKey := SummarySpec(), ks.histogramKey := HistogramOnlySpec()]
  }

  /** The scalar entries after the first phase, under the given names. */
  function FirstEntries(ks: Keys): seq<Entry> {
    [ ScalarEntry(ks.key1, COUNT, 37), ScalarEntry(ks.key2, AVG, 1015),
      ScalarEntry(ks.key3, SUM, 0), ScalarEntry(ks.key4, RATE, 0) ]
  }

  /** Under the test's names these are the scalars of the first page. */
  lemma FirstEntriesAreScalarEntries()
    ensures FirstEntries(TestKeys()) == ScalarEntries()
  {
  }

  /** What the scalars received in the first phase: test.key1 the three test
      values and the default 1, test.key2 each test value plus 1000. */
  lemma FirstPhaseValues()
    ensures ScalarValue(COUNT, [10, 11, 15, 1]) == 37
    ensures ScalarValue(AVG, [1010, 1011, 1015]) == 1015
  {
    assert [10, 11, 15, 1][1..] == [11, 15, 1];
    assert [11, 15, 1][1..] == [15, 1];
    assert [15, 1][1..] == [1];
  }

  /** Entry i of the snapshot: a scalar reports what its observations
      determine, a histogram replays them. */
  lemma SnapshotAt(reporter: PrometheusReporter, i: nat)
    requires reporter.Valid() && i < |reporter.order|
    ensures var n := reporter.order[i];
      n in reporter.registeredMetrics ==>
        && n in reporter.observed
        && reporter.Snapshot()[i]
        == ScalarEntry(n, reporter.registeredMetrics[n], ScalarValue(reporter.registeredMetrics[n], reporter.observed[n]))
    ensures var n := reporter.order[i];
      n !in reporter.registeredMetrics ==>
        && n in reporter.histogramSpecs && n in reporter.observed && ValidGeometry(reporter.histogramSpecs[n])
        && reporter.Snapshot()[i]
           == HistogramEntry(n, reporter.histogramSpecs[n], Replay(reporter.histogramSpecs[n], reporter.observed[n]))
  {
    reporter.Unpacked();
  }

  /** A scalar at position i reports its current value, which is what its
      observations determine. */
  lemma ScalarEntryAt(reporter: PrometheusReporter, i: nat, name: string, kind: StatType)
    requires reporter.Valid() && i < |reporter.order| && reporter.order[i] == name
    requires name in reporter.registeredMetrics && reporter.registeredMetrics[name] == kind
    ensures name in reporter.values && name in reporter.observed
    ensures reporter.values[name] == ScalarValue(kind, reporter.observed[name])
    ensures reporter.Snapshot()[i] == ScalarEntry(name, kind, reporter.values[name])
  {
    SnapshotAt(reporter, i);
    reporter.Unpacked();
  }

  /** The values the first phase leaves in the two scalars it feeds. */
  lemma FirstValues(reporter: PrometheusReporter, ks: Keys)
    requires reporter.Valid() && Distinct(ks) && reporter.registeredMetrics == ScalarKinds(ks)
    requires ks.key1 in reporter.observed && reporter.observed[ks.key1] == [10, 11, 15, 1]
    requires ks.key2 in reporter.observed && reporter.observed[ks.key2] == [1010, 1011, 1015]
    ensures ks.key1 in reporter.values && reporter.values[ks.key1] == 37
    ensures ks.key2 in reporter.values && reporter.values[ks.key2] == 1015
  {
    reporter.Unpacked();
    FirstPhaseValues();
  }

  /** A histogram at position i replays its observations. */
  lemma HistogramEntryAt(reporter: PrometheusReporter, i: nat, name: string, spec: HistogramSpec, h: seq<nat>)
    requires reporter.Valid() && i < |reporter.order| && reporter.order[i] == name
    requires name !in reporter.registeredMetrics && name in reporter.histogramSpecs
    requires reporter.histogramSpecs[name] == spec && name in reporter.observed && reporter.observed[name] == h
    ensures ValidGeometry(spec)
    ensures reporter.Snapshot()[i] == HistogramEntry(name, spec, Replay(spec, h))
  {
    SnapshotAt(reporter, i);
  }

  /** While the order starts with the four scalars, the snapshot starts
      with their entries. */
  lemma ScalarPrefix(reporter: PrometheusReporter, ks: Keys)
    requires reporter.Valid() && Distinct(ks)
    requires |reporter.order| >= 4 && reporter.order[..4] == ScalarNames(ks)
    requires reporter.registeredMetrics == ScalarKinds(ks)
    requires ks.key1 in reporter.values && reporter.values[ks.key1] == 37
    requires ks.key2 in reporter.values && reporter.values[ks.key2] == 1015
    ensures |reporter.Snapshot()| == |reporter.order|
    ensures reporter.Snapshot()[..4] == FirstEntries(ks)
  {
    assert reporter.order[0] == ks.key1 && reporter.order[1] == ks.key2;
    assert reporter.order[2] == ks.key3 && reporter.order[3] == ks.key4;
    ScalarEntryAt(reporter, 0, ks.key1, COUNT);
    ScalarEntryAt(reporter, 1, ks.key2, AVG);
    ScalarEntryAt(reporter, 2, ks.key3, SUM);
    ScalarEntryAt(reporter, 3, ks.key4, RATE);
    var es := reporter.Snapshot();
    assert es[..4] == [es[0], es[1], es[2], es[3]];
  }

  /** After the first phase the reporter's snapshot is the four scalars with
      the values the test expects. */
  lemma FirstSnapshot(reporter: PrometheusReporter, ks: Keys)
    requires reporter.Valid() && Distinct(ks)
    requires reporter.order == ScalarNames(ks) && reporter.registeredMetrics == ScalarKinds(ks)
    requires ks.key1 in reporter.values && reporter.values[ks.key1] == 37
    requires ks.key2 in reporter.values && reporter.values[ks.key2] == 1015
    ensures reporter.Snapshot() == FirstEntries(ks)
  {
    ScalarPrefix(reporter, ks);
    var es := reporter.Snapshot();
    assert es == es[..4];
  }

  /** After the second phase the snapshot is the four scalars, unchanged,
      followed by the two histograms replaying what they observed. */
  lemma SecondSnapshot(reporter: PrometheusReporter, ks: Keys, h1: seq<nat>, h2: seq<nat>)
    requires reporter.Valid() && Distinct(ks)
    requires reporter.order == ScalarNames(ks) + Histograms(ks)
    requires reporter.registeredMetrics == ScalarKinds(ks) && reporter.histogramSpecs == HistogramSpecs(ks)
    requires ks.key1 in reporter.values && reporter.values[ks.key1] == 37
    requires ks.key2 in reporter.values && reporter.values[ks.key2] == 1015
    requires ks.histSummaryKey in reporter.observed && reporter.observed[ks.histSummaryKey] == h1
    requires ks.histogramKey in reporter.observed && reporter.observed[ks.histogramKey] == h2
    ensures ValidGeometry(SummarySpec()) && ValidGeometry(HistogramOnlySpec())
    ensures reporter.Snapshot()
            == FirstEntries(ks)
               + [ HistogramEntry(ks.histSummaryKey, SummarySpec(), Replay(SummarySpec(), h1)),
                   HistogramEntry(ks.histogramKey, HistogramOnlySpec(), Replay(HistogramOnlySpec(), h2)) ]
  {
    assert reporter.order[..4] == ScalarNames(ks);
    ScalarPrefix(reporter, ks);
    HistogramEntryAt(reporter, 4, ks.histSummaryKey, SummarySpec(), h1);
    HistogramEntryAt(reporter, 5, ks.histogramKey, HistogramOnlySpec(), h2);
    var es := reporter.Snapshot();
    assert es == es[..4] + [es[4], es[5]];
  }

  lemma ScalarNamesNoNewline()
    ensures NamesNoNewline(ScalarEntries())
  {
  }

  lemma HistogramNamesNoNewline(acc1: HistogramAcc, acc2: HistogramAcc)
    ensures NamesNoNewline(ScalarEntries() + HistogramEntries(acc1, acc2))
  {
    ScalarNamesNoNewline();
  }

  /** A page whose lines are known reads back as those lines. */
  lemma PageReadsAs(labels: seq<Label>, es: seq<Entry>, lines: seq<string>)
    requires WellFormed(es) && NamesNoNewline(es) && LabelsNoNewline(labels)
    requires Texts(labels, Serialize(es)) == lines
    ensures CompleteLines(Page(labels, es)) == lines
  {
    PageReadsBack(labels, es);
  }

  /** The first page reads back as exactly the eight lines the test expects. */
  lemma FirstPageReadsBack(labels: seq<Label>)
    requires labels != [] && LabelsNoNewline(labels)
    ensures WellFormed(ScalarEntries())
    ensures CompleteLines(Page(labels, ScalarEntries())) == Expected(FormatLabels(labels))
  {
    FirstPageText(labels);
    PageReadsAs(labels, ScalarEntries(), Expected(FormatLabels(labels)));
  }

  /** The first page's lines, before they are joined. */
  lemma FirstPageText(labels: seq<Label>)
    requires labels != []
    ensures WellFormed(ScalarEntries()) && NamesNoNewline(ScalarEntries())
    ensures Texts(labels, Serialize(ScalarEntries())) == Expected(FormatLabels(labels))
  {
    ScalarEntriesSections();
    ScalarNamesNoNewline();
    PageOfSections(labels, ScalarEntries(), ScalarSection(ScalarEntries()), [], []);
    ScalarLines(labels);
  }

  /** The second page reads back as exactly the eight scalar lines followed by
      the test's histogram lines, with its record count 100 and its running
      sum 6150. */
  lemma SecondPageReadsBack(labels: seq<Label>, acc1: HistogramAcc, acc2: HistogramAcc)
    requires labels != [] && LabelsNoNewline(labels)
    requires ValidGeometry(SummarySpec()) && Summarizes(SummarySpec(), Records(100), acc1)
    requires ValidGeometry(HistogramOnlySpec()) && Summarizes(HistogramOnlySpec(), [10], acc2)
    ensures WellFormed(ScalarEntries() + HistogramEntries(acc1, acc2))
    ensures CompleteLines(Page(labels, ScalarEntries() + HistogramEntries(acc1, acc2)))
            == Expected(FormatLabels(labels))
               + HistogramMetricsFormatted("test_histogram_key1", "test_histogram_key2", FormatLabels(labels), 100, 6150)
  {
    Key1Name();
    Key2Name();
    RecordsSum();
    HistogramNamesNoNewline(acc1, acc2);
    SecondPageLines(labels, "test_histogram_key1", "test_histogram_key2", acc1, acc2);
    PageReadsAs(labels, ScalarEntries() + HistogramEntries(acc1, acc2),
                Expected(FormatLabels(labels))
                + HistogramMetricsFormatted("test_histogram_key1", "test_histogram_key2", FormatLabels(labels), 100, 6150));
  }

  // ---------------------------------------------------------------------------
  // The test, phase by phase

  /** One registration of a name not yet in use: the test checks nothing
      of its result, which is `Registered`. */
  method RegisterFresh(reporter: PrometheusReporter, name: string, kind: StatType)
    requires reporter.Valid() && name !in reporter.registeredMetrics && name !in reporter.histogramSpecs
    modifies reporter
    ensures reporter.Valid()
    ensures reporter.registeredMetrics == old(reporter.registeredMetrics)[name := kind]
    ensures reporter.observed == old(reporter.observed)[name := []]
    ensures reporter.order == old(reporter.order) + [name]
    ensures reporter.histogramSpecs == old(reporter.histogramSpecs)
  {
    var result := reporter.RegisterMetricExportType(name, kind);
  }

  /** The four scalar registrations, and the test's check that each name is
      registered with its kind. */
  method RegisterScalars(reporter: PrometheusReporter, ks: Keys) returns (kindsOk: bool)
    requires reporter.Valid() && Distinct(ks) && reporter.order == []
    requires reporter.registeredMetrics == map[] && reporter.histogramSpecs == map[]
    modifies reporter
    ensures reporter.Valid() && kindsOk
    ensures reporter.order == ScalarNames(ks) && reporter.registeredMetrics == ScalarKinds(ks)
    ensures reporter.histogramSpecs == map[]
    ensures ks.key1 in reporter.observed && ks.key2 in reporter.observed && reporter.observed[ks.key1] == [] && reporter.observed[ks.key2] == []
  {
    RegisterFresh(reporter, ks.key1, COUNT);
    RegisterFresh(reporter, ks.key2, AVG);
    RegisterFresh(reporter, ks.key3, SUM);
    RegisterFresh(reporter, ks.key4, RATE);
    kindsOk := && reporter.registeredMetrics[ks.key1] == COUNT
               && reporter.registeredMetrics[ks.key2] == AVG
               && reporter.registeredMetrics[ks.key3] == SUM
               && reporter.registeredMetrics[ks.key4] == RATE;
  }

  /** One round of the test-data loop: the value goes to test.key1 and the
      value plus 1000 to test.key2. */
  method ObservePair(reporter: PrometheusReporter, ks: Keys, v: nat)
    requires reporter.Valid() && ks.key1 != ks.key2
    requires ks.key1 in reporter.registeredMetrics && ks.key2 in reporter.registeredMetrics
    modifies reporter
    ensures reporter.Valid()
    ensures reporter.registeredMetrics == old(reporter.registeredMetrics)
    ensures reporter.histogramSpecs == old(reporter.histogramSpecs) && reporter.order == old(reporter.order)
    ensures ks.key1 in old(reporter.observed) && ks.key1 in reporter.observed
    ensures reporter.observed[ks.key1] == old(reporter.observed[ks.key1]) + [v]
    ensures ks.key2 in old(reporter.observed) && ks.key2 in reporter.observed
    ensures reporter.observed[ks.key2] == old(reporter.observed[ks.key2]) + [v + 1000]
  {
    reporter.AddMetricValue(ks.key1, v);
    reporter.AddMetricValue(ks.key2, v + 1000);
  }

  /** The loop over the test data, then one call with the default amount. */
  method ObserveScalars(reporter: PrometheusReporter, ks: Keys)
    requires reporter.Valid() && ks.key1 != ks.key2
    requires ks.key1 in reporter.registeredMetrics && ks.key2 in reporter.registeredMetrics
    requires ks.key1 in reporter.observed && ks.key2 in reporter.observed && reporter.observed[ks.key1] == [] && reporter.observed[ks.key2] == []
    modifies reporter
    ensures reporter.Valid()
    ensures reporter.order == old(reporter.order) && reporter.registeredMetrics == old(reporter.registeredMetrics)
    ensures reporter.histogramSpecs == old(reporter.histogramSpecs)
    ensures ks.key1 in reporter.observed && reporter.observed[ks.key1] == [10, 11, 15, 1]
    ensures ks.key2 in reporter.observed && reporter.observed[ks.key2] == [1010, 1011, 1015]
  {
    var testData: seq<nat> := [10, 11, 15];
    for k := 0 to |testData|
      invariant reporter.Valid()
      invariant reporter.order == old(reporter.order) && reporter.registeredMetrics == old(reporter.registeredMetrics)
      invariant reporter.histogramSpecs == old(reporter.histogramSpecs)
      invariant ks.key1 in reporter.observed && reporter.observed[ks.key1] == testData[..k]
      invariant ks.key2 in reporter.observed && reporter.observed[ks.key2] == seq(k, j requires 0 <= j < k => testData[j] + 1000)
    {
      ObservePair(reporter, ks, testData[k]);
      assert testData[..k + 1] == testData[..k] + [testData[k]];
    }
    // The amount defaults to 1.
    reporter.AddMetricValue(ks.key1);
    assert testData[..3] == [10, 11, 15];
  }

  /** The histogram with percentiles and the one without. */
  method RegisterHistograms(reporter: PrometheusReporter, ks: Keys)
    requires reporter.Valid() && Distinct(ks)
    requires reporter.order == ScalarNames(ks) && reporter.registeredMetrics == ScalarKinds(ks)
    requires reporter.histogramSpecs == map[]
    modifies reporter
    ensures reporter.Valid()
    ensures reporter.order == ScalarNames(ks) + Histograms(ks)
    ensures reporter.registeredMetrics == ScalarKinds(ks) && reporter.histogramSpecs == HistogramSpecs(ks)
    ensures reporter.values == old(reporter.values)
    ensures ks.histSummaryKey in reporter.observed && ks.histogramKey in reporter.observed && reporter.observed[ks.histSummaryKey] == [] && reporter.observed[ks.histogramKey] == []
  {
    TestBoundaries(SummarySpec());
    TestBoundaries(HistogramOnlySpec());
    var h1 := reporter.RegisterHistogramMetricExportType(ks.histSummaryKey, 10, 0, 100, [50, 99, 100]);
    var h2 := reporter.RegisterHistogramMetricExportType(ks.histogramKey, 10, 0, 100, []);
  }

  /** One observation of a registered histogram, another name's observations
      left as they are. */
  method ObserveRecord(reporter: PrometheusReporter, name: string, other: string, v: nat)
    requires reporter.Valid() && name != other && name in reporter.histogramSpecs
    requires name in reporter.observed && other in reporter.observed
    modifies reporter
    ensures reporter.Valid()
    ensures reporter.registeredMetrics == old(reporter.registeredMetrics) && reporter.values == old(reporter.values)
    ensures reporter.histogramSpecs == old(reporter.histogramSpecs) && reporter.order == old(reporter.order)
    ensures name in reporter.observed && reporter.observed[name] == old(reporter.observed[name]) + [v]
    ensures other in reporter.observed && reporter.observed[other] == old(reporter.observed[other])
  {
    reporter.AddHistogramMetricValue(name, v);
  }

  /** The hundred observations of the first histogram, with the test's own
      running count and sum. */
  method ObserveRecords(reporter: PrometheusReporter, name: string, other: string) returns (recordCount: nat, sum: nat)
    requires reporter.Valid() && name != other
    requires name in reporter.histogramSpecs && name in reporter.observed && reporter.observed[name] == []
    requires other in reporter.observed && reporter.observed[other] == []
    modifies reporter
    ensures reporter.Valid()
    ensures reporter.registeredMetrics == old(reporter.registeredMetrics) && reporter.values == old(reporter.values)
    ensures reporter.histogramSpecs == old(reporter.histogramSpecs) && reporter.order == old(reporter.order)
    ensures name in reporter.observed && reporter.observed[name] == Records(recordCount)
    ensures other in reporter.observed && reporter.observed[other] == []
    ensures recordCount == 100 && sum == Sum(Records(recordCount))
  {
    recordCount := 100;
    sum := 0;
    for i := 0 to recordCount
      invariant reporter.Valid()
      invariant reporter.registeredMetrics == old(reporter.registeredMetrics) && reporter.values == old(reporter.values)
      invariant reporter.histogramSpecs == old(reporter.histogramSpecs) && reporter.order == old(reporter.order)
      invariant name in reporter.observed && reporter.observed[name] == Records(i)
      invariant other in reporter.observed && reporter.observed[other] == []
      invariant sum == Sum(Records(i))
    {
      if i < 20 {
        ObserveRecord(reporter, name, other, 20);
        sum := sum + 20;
      } else if i >= 20 && i < 50 {
        ObserveRecord(reporter, name, other, 50);
        sum := sum + 50;
      } else {
        ObserveRecord(reporter, name, other, 85);
        sum := sum + 85;
      }
      assert Records(i + 1) == Records(i) + [Recorded(i)];
      SumSnoc(Records(i), Recorded(i));
    }
  }

  /** The first half of `testAllMetrics`: the scalars are registered and
      fed, and the page is compared with the expected lines. */
  method CheckScalarPage(reporter: PrometheusReporter, ks: Keys, expected: seq<string>)
    returns (kindsOk: bool, firstPage: string, firstOk: bool)
    requires reporter.Valid() && reporter.labels == TestLabels() && ks == TestKeys()
    requires reporter.order == [] && reporter.registeredMetrics == map[] && reporter.histogramSpecs == map[]
    requires expected == Expected(LabelsSerialized)
    modifies reporter
    ensures reporter.Valid() && kindsOk && firstOk
    ensures CompleteLines(firstPage) == expected
    ensures reporter.order == ScalarNames(ks) && reporter.registeredMetrics == ScalarKinds(ks)
    ensures reporter.histogramSpecs == map[]
    ensures ks.key1 in reporter.values && reporter.values[ks.key1] == 37
    ensures ks.key2 in reporter.values && reporter.values[ks.key2] == 1015
  {
    TestKeysDistinct();
    kindsOk := RegisterScalars(reporter, ks);
    ObserveScalars(reporter, ks);
    firstPage := reporter.GetSerializedMetrics();
    TestLabelsText();
    TestLabelsNoNewline();
    FirstValues(reporter, ks);
    FirstSnapshot(reporter, ks);
    FirstEntriesAreScalarEntries();
    FirstPageReadsBack(reporter.labels);
    firstOk := VerifySerializedResult(firstPage, expected);
  }

  /** The histogram registrations and observations of `testAllMetrics`,
      with the test's own record count and running sum. */
  method FeedHistograms(reporter: PrometheusReporter, ks: Keys) returns (recordCount: nat, sum: nat)
    requires reporter.Valid() && Distinct(ks)
    requires reporter.order == ScalarNames(ks) && reporter.registeredMetrics == ScalarKinds(ks)
    requires reporter.histogramSpecs == map[]
    modifies reporter
    ensures reporter.Valid()
    ensures reporter.order == ScalarNames(ks) + Histograms(ks)
    ensures reporter.registeredMetrics == ScalarKinds(ks) && reporter.histogramSpecs == HistogramSpecs(ks)
    ensures reporter.values == old(reporter.values)
    ensures ks.histSummaryKey in reporter.observed && reporter.observed[ks.histSummaryKey] == Records(recordCount)
    ensures ks.histogramKey in reporter.observed && reporter.observed[ks.histogramKey] == [10]
    ensures recordCount == 100 && sum == 6150
  {
    RegisterHistograms(reporter, ks);
    recordCount, sum := ObserveRecords(reporter, ks.histSummaryKey, ks.histogramKey);
    reporter.AddHistogramMetricValue(ks.histogramKey, 10);
    RecordsSum();
  }

  /** The second page reads back as the first page's lines followed by the
      test's histogram lines. */
  lemma SecondPageIs(reporter: PrometheusReporter, ks: Keys, records: seq<nat>)
    requires reporter.Valid() && reporter.labels == TestLabels() && ks == TestKeys() && Distinct(ks)
    requires reporter.order == ScalarNames(ks) + Histograms(ks)
    requires reporter.registeredMetrics == ScalarKinds(ks) && reporter.histogramSpecs == HistogramSpecs(ks)
    requires ks.key1 in reporter.values && reporter.values[ks.key1] == 37
    requires ks.key2 in reporter.values && reporter.values[ks.key2] == 1015
    requires records == Records(100)
    requires ks.histSummaryKey in reporter.observed && reporter.observed[ks.histSummaryKey] == records
    requires ks.histogramKey in reporter.observed && reporter.observed[ks.histogramKey] == [10]
    ensures CompleteLines(reporter.GetSerializedMetrics())
            == Expected(LabelsSerialized)
               + HistogramMetricsFormatted("test_histogram_key1", "test_histogram_key2", LabelsSerialized, 100, 6150)
  {
    SecondSnapshot(reporter, ks, records, [10]);
    var acc1, acc2 := Replay(SummarySpec(), records), Replay(HistogramOnlySpec(), [10]);
    assert reporter.Snapshot() == ScalarEntries() + HistogramEntries(acc1, acc2);
    ReplaySummarizes(SummarySpec(), records);
    ReplaySummarizes(HistogramOnlySpec(), [10]);
    TestLabelsText();
    TestLabelsNoNewline();
    SecondPageReadsBack(reporter.labels, acc1, acc2);
  }

  /** The second half of `testAllMetrics`: the histograms are registered and
      fed, and the page is compared with the expected lines extended by the
      histogram lines. */
  method CheckHistogramPage(reporter: PrometheusReporter, ks: Keys, labelsSerialized: string, expected: seq<string>)
    returns (secondPage: string, secondOk: bool)
    requires reporter.Valid() && reporter.labels == TestLabels() && ks == TestKeys()
    requires reporter.order == ScalarNames(ks) && reporter.registeredMetrics == ScalarKinds(ks)
    requires reporter.histogramSpecs == map[]
    requires ks.key1 in reporter.values && reporter.values[ks.key1] == 37
    requires ks.key2 in reporter.values && reporter.values[ks.key2] == 1015
    requires labelsSerialized == LabelsSerialized && expected == Expected(LabelsSerialized)
    modifies reporter
    ensures secondOk
    ensures CompleteLines(secondPage)
            == expected + HistogramMetricsFormatted("test_histogram_key1", "test_histogram_key2", LabelsSerialized, 100, 6150)
  {
    TestKeysDistinct();
    var recordCount, sum := FeedHistograms(reporter, ks);
    secondPage := reporter.GetSerializedMetrics();
    SecondPageIs(reporter, ks, Records(recordCount));

    // The expected names are the histogram names with every '.' replaced by '_'.
    var histSummaryKey := Sanitize(ks.histSummaryKey);
    var histogramKey := Sanitize(ks.histogramKey);
    Key1Name();
    Key2Name();
    var histogramMetricsFormatted := HistogramMetricsFormatted(histSummaryKey, histogramKey, labelsSerialized, recordCount, sum);
    secondOk := VerifySerializedResult(secondPage, expected + histogramMetricsFormatted);
  }

  /** `testAllMetrics`. Each boolean result is the outcome of one group of
      the test's checks: the registered kinds, the comparison of the first
      page and the comparison of the second page. All of them succeed, and
      each page reads back as exactly the lines the test expects. */
  method TestAllMetrics() returns (kindsOk: bool, firstPage: string, firstOk: bool, secondPage: string, secondOk: bool)
    ensures kindsOk && firstOk && secondOk
    ensures CompleteLines(firstPage) == Expected(LabelsSerialized)
    ensures CompleteLines(secondPage)
            == Expected(LabelsSerialized)
               + HistogramMetricsFormatted("test_histogram_key1", "test_histogram_key2", LabelsSerialized, 100, 6150)
  {
    var labelsSerialized := "cluster=\"test_cluster\",worker=\"test_worker_pod\"";
    var reporter := new PrometheusReporter(TestLabels());
    var expected := Expected(labelsSerialized);
    kindsOk, firstPage, firstOk := CheckScalarPage(reporter, TestKeys(), expected);
    secondPage, secondOk := CheckHistogramPage(reporter, TestKeys(), labelsSerialized, expected);
  }
}
