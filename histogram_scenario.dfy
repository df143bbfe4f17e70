/** The histogram half of the second page of PrometheusReporterTest: the
    blocks written for `test.histogram.key1` (buckets and percentiles) and
    `test.histogram.key2` (buckets only), compared line by line with the
    test's `histogramMetricsFormatted`. */
module HistogramScenario {
  import opened Wrappers
  import opened Exposition
  import opened Accumulators
  import opened Serializer
  import opened Scenario

  // ---------------------------------------------------------------------------
  // Bucket lines

  /** The numerals that recur on the page. */
  lemma SmallTexts()
    ensures NatToString(0) == "0" && NatToString(1) == "1" && NatToString(10) == "10" && NatToString(100) == "100"
  {
    assert NatToString(1) == "1";
  }

  /** The bounds of the test's buckets, as text. */
  lemma BoundaryTexts(spec: HistogramSpec)
    requires spec.bucketCount == 10 && spec.min == 0 && spec.max == 100
    ensures ValidGeometry(spec)
    ensures IntToString(Boundary(spec, 0)) == "10" && IntToString(Boundary(spec, 1)) == "20"
    ensures IntToString(Boundary(spec, 2)) == "30" && IntToString(Boundary(spec, 3)) == "40"
    ensures IntToString(Boundary(spec, 4)) == "50" && IntToString(Boundary(spec, 5)) == "60"
    ensures IntToString(Boundary(spec, 6)) == "70" && IntToString(Boundary(spec, 7)) == "80"
    ensures IntToString(Boundary(spec, 8)) == "90" && IntToString(Boundary(spec, 9)) == "100"
  {
    TestBoundaries(spec);
    SmallTexts();
    assert NatToString(20) == "20" && NatToString(30) == "30" && NatToString(40) == "40" && NatToString(50) == "50";
    assert NatToString(60) == "60" && NatToString(70) == "70" && NatToString(80) == "80" && NatToString(90) == "90";
  }

  /** Regrouping the tail of a line. */
  lemma Regroup2(prefix: string, a: string, b: string, t: string)
    requires a + b == t
    ensures prefix + a + b == prefix + t
  {
    assert prefix + a + b == prefix + (a + b);
  }

  lemma Regroup4(prefix: string, a: string, b: string, c: string, d: string, t: string)
    requires a + b + c + d == t
    ensures prefix + a + b + c + d == prefix + t
  {
    assert prefix + a + b + c + d == prefix + (a + b + c + d);
  }

  /** Ten lines, one by one. */
  lemma TenLines(a: seq<string>, x0: string, x1: string, x2: string, x3: string, x4: string,
                 x5: string, x6: string, x7: string, x8: string, x9: string)
    requires |a| == 10 && a[0] == x0 && a[1] == x1 && a[2] == x2 && a[3] == x3 && a[4] == x4
    requires a[5] == x5 && a[6] == x6 && a[7] == x7 && a[8] == x8 && a[9] == x9
    ensures a == [x0, x1, x2, x3, x4, x5, x6, x7, x8, x9]
  {
  }

  /** The `le` labels and counts of `test.histogram.key1` after the hundred records, regrouped. */
  lemma SummaryTails()
    ensures ",le=\"" + "10" + "\"} " + "0" == ",le=\"10\"} 0" &&
            ",le=\"" + "20" + "\"} " + "20" == ",le=\"20\"} 20" &&
            ",le=\"" + "30" + "\"} " + "20" == ",le=\"30\"} 20" &&
            ",le=\"" + "40" + "\"} " + "20" == ",le=\"40\"} 20" &&
            ",le=\"" + "50" + "\"} " + "50" == ",le=\"50\"} 50" &&
            ",le=\"" + "60" + "\"} " + "50" == ",le=\"60\"} 50" &&
            ",le=\"" + "70" + "\"} " + "50" == ",le=\"70\"} 50" &&
            ",le=\"" + "80" + "\"} " + "50" == ",le=\"80\"} 50" &&
            ",le=\"" + "90" + "\"} " + "100" == ",le=\"90\"} 100" &&
            ",le=\"" + "100" + "\"} " + "100" == ",le=\"100\"} 100"
  {
  }

  lemma SummaryBucket0(labels: seq<Label>, key: string, acc: HistogramAcc)
    requires |acc.buckets| == 10 && acc.buckets[0] == 0
    ensures BucketTexts(labels, key, SummarySpec(), acc)[0]
            == key + "_bucket{" + FormatLabels(labels) + ",le=\"" + "10" + "\"} " + "0"
  {
    BoundaryTexts(SummarySpec());
    SmallTexts();
  }

  lemma SummaryBucket1(labels: seq<Label>, key: string, acc: HistogramAcc)
    requires |acc.buckets| == 10 && acc.buckets[1] == 20
    ensures BucketTexts(labels, key, SummarySpec(), acc)[1]
            == key + "_bucket{" + FormatLabels(labels) + ",le=\"" + "20" + "\"} " + "20"
  {
    BoundaryTexts(SummarySpec());
    assert NatToString(20) == "20";
  }

  lemma SummaryBucket2(labels: seq<Label>, key: string, acc: HistogramAcc)
    requires |acc.buckets| == 10 && acc.buckets[2] == 20
    ensures BucketTexts(labels, key, SummarySpec(), acc)[2]
            == key + "_bucket{" + FormatLabels(labels) + ",le=\"" + "30" + "\"} " + "20"
  {
    BoundaryTexts(SummarySpec());
    assert NatToString(20) == "20";
  }

  lemma SummaryBucket3(labels: seq<Label>, key: string, acc: HistogramAcc)
    requires |acc.buckets| == 10 && acc.buckets[3] == 20
    ensures BucketTexts(labels, key, SummarySpec(), acc)[3]
            == key + "_bucket{" + FormatLabels(labels) + ",le=\"" + "40" + "\"} " + "20"
  {
    BoundaryTexts(SummarySpec());
    assert NatToString(20) == "20";
  }

  lemma SummaryBucket4(labels: seq<Label>, key: string, acc: HistogramAcc)
    requires |acc.buckets| == 10 && acc.buckets[4] == 50
    ensures BucketTexts(labels, key, SummarySpec(), acc)[4]
            == key + "_bucket{" + FormatLabels(labels) + ",le=\"" + "50" + "\"} " + "50"
  {
    BoundaryTexts(SummarySpec());
    assert NatToString(50) == "50";
  }

  lemma SummaryBucket5(labels: seq<Label>, key: string, acc: HistogramAcc)
    requires |acc.buckets| == 10 && acc.buckets[5] == 50
    ensures BucketTexts(labels, key, SummarySpec(), acc)[5]
            == key + "_bucket{" + FormatLabels(labels) + ",le=\"" + "60" + "\"} " + "50"
  {
    BoundaryTexts(SummarySpec());
    assert NatToString(50) == "50";
  }

  lemma SummaryBucket6(labels: seq<Label>, key: string, acc: HistogramAcc)
    requires |acc.buckets| == 10 && acc.buckets[6] == 50
    ensures BucketTexts(labels, key, SummarySpec(), acc)[6]
            == key + "_bucket{" + FormatLabels(labels) + ",le=\"" + "70" + "\"} " + "50"
  {
    BoundaryTexts(SummarySpec());
    assert NatToString(50) == "50";
  }

  lemma SummaryBucket7(labels: seq<Label>, key: string, acc: HistogramAcc)
    requires |acc.buckets| == 10 && acc.buckets[7] == 50
    ensures BucketTexts(labels, key, SummarySpec(), acc)[7]
            == key + "_bucket{" + FormatLabels(labels) + ",le=\"" + "80" + "\"} " + "50"
  {
    BoundaryTexts(SummarySpec());
    assert NatToString(50) == "50";
  }

  lemma SummaryBucket8(labels: seq<Label>, key: string, acc: HistogramAcc)
    requires |acc.buckets| == 10 && acc.buckets[8] == 100
    ensures BucketTexts(labels, key, SummarySpec(), acc)[8]
            == key + "_bucket{" + FormatLabels(labels) + ",le=\"" + "90" + "\"} " + "100"
  {
    BoundaryTexts(SummarySpec());
    SmallTexts();
  }

  lemma SummaryBucket9(labels: seq<Label>, key: string, acc: HistogramAcc)
    requires |acc.buckets| == 10 && acc.buckets[9] == 100
    ensures BucketTexts(labels, key, SummarySpec(), acc)[9]
            == key + "_bucket{" + FormatLabels(labels) + ",le=\"" + "100" + "\"} " + "100"
  {
    BoundaryTexts(SummarySpec());
    SmallTexts();
  }

  /** The bucket lines of `test.histogram.key1` after the hundred records. */
  lemma SummaryBuckets(labels: seq<Label>, key: string, acc: HistogramAcc)
    requires acc.buckets == [0, 20, 20, 20, 50, 50, 50, 50, 100, 100]
    ensures var f := FormatLabels(labels);
      BucketTexts(labels, key, SummarySpec(), acc)
      == [ key + "_bucket{" + f + ",le=\"10\"} 0",
           key + "_bucket{" + f + ",le=\"20\"} 20",
           key + "_bucket{" + f + ",le=\"30\"} 20",
           key + "_bucket{" + f + ",le=\"40\"} 20",
           key + "_bucket{" + f + ",le=\"50\"} 50",
           key + "_bucket{" + f + ",le=\"60\"} 50",
           key + "_bucket{" + f + ",le=\"70\"} 50",
           key + "_bucket{" + f + ",le=\"80\"} 50",
           key + "_bucket{" + f + ",le=\"90\"} 100",
           key + "_bucket{" + f + ",le=\"100\"} 100" ]
  {
    var p := key + "_bucket{" + FormatLabels(labels);
    SummaryTails();
    SummaryBucket0(labels, key, acc); Regroup4(p, ",le=\"", "10", "\"} ", "0", ",le=\"10\"} 0");
    SummaryBucket1(labels, key, acc); Regroup4(p, ",le=\"", "20", "\"} ", "20", ",le=\"20\"} 20");
    SummaryBucket2(labels, key, acc); Regroup4(p, ",le=\"", "30", "\"} ", "20", ",le=\"30\"} 20");
    SummaryBucket3(labels, key, acc); Regroup4(p, ",le=\"", "40", "\"} ", "20", ",le=\"40\"} 20");
    SummaryBucket4(labels, key, acc); Regroup4(p, ",le=\"", "50", "\"} ", "50", ",le=\"50\"} 50");
    SummaryBucket5(labels, key, acc); Regroup4(p, ",le=\"", "60", "\"} ", "50", ",le=\"60\"} 50");
    SummaryBucket6(labels, key, acc); Regroup4(p, ",le=\"", "70", "\"} ", "50", ",le=\"70\"} 50");
    SummaryBucket7(labels, key, acc); Regroup4(p, ",le=\"", "80", "\"} ", "50", ",le=\"80\"} 50");
    SummaryBucket8(labels, key, acc); Regroup4(p, ",le=\"", "90", "\"} ", "100", ",le=\"90\"} 100");
    SummaryBucket9(labels, key, acc); Regroup4(p, ",le=\"", "100", "\"} ", "100", ",le=\"100\"} 100");
    TenLines(BucketTexts(labels, key, SummarySpec(), acc),
             p + ",le=\"10\"} 0",
             p + ",le=\"20\"} 20",
             p + ",le=\"30\"} 20",
             p + ",le=\"40\"} 20",
             p + ",le=\"50\"} 50",
             p + ",le=\"60\"} 50",
             p + ",le=\"70\"} 50",
             p + ",le=\"80\"} 50",
             p + ",le=\"90\"} 100",
             p + ",le=\"100\"} 100");
  }

  /** The `le` labels and counts of `test.histogram.key2` after its one observation, regrouped. */
  lemma HistogramOnlyTails()
    ensures ",le=\"" + "10" + "\"} " + "1" == ",le=\"10\"} 1" &&
            ",le=\"" + "20" + "\"} " + "1" == ",le=\"20\"} 1" &&
            ",le=\"" + "30" + "\"} " + "1" == ",le=\"30\"} 1" &&
            ",le=\"" + "40" + "\"} " + "1" == ",le=\"40\"} 1" &&
            ",le=\"" + "50" + "\"} " + "1" == ",le=\"50\"} 1" &&
            ",le=\"" + "60" + "\"} " + "1" == ",le=\"60\"} 1" &&
            ",le=\"" + "70" + "\"} " + "1" == ",le=\"70\"} 1" &&
            ",le=\"" + "80" + "\"} " + "1" == ",le=\"80\"} 1" &&
            ",le=\"" + "90" + "\"} " + "1" == ",le=\"90\"} 1" &&
            ",le=\"" + "100" + "\"} " + "1" == ",le=\"100\"} 1"
  {
  }

  lemma HistogramOnlyBucket0(labels: seq<Label>, key: string, acc: HistogramAcc)
    requires |acc.buckets| == 10 && acc.buckets[0] == 1
    ensures BucketTexts(labels, key, HistogramOnlySpec(), acc)[0]
            == key + "_bucket{" + FormatLabels(labels) + ",le=\"" + "10" + "\"} " + "1"
  {
    BoundaryTexts(HistogramOnlySpec());
    SmallTexts();
  }

  lemma HistogramOnlyBucket1(labels: seq<Label>, key: string, acc: HistogramAcc)
    requires |acc.buckets| == 10 && acc.buckets[1] == 1
    ensures BucketTexts(labels, key, HistogramOnlySpec(), acc)[1]
            == key + "_bucket{" + FormatLabels(labels) + ",le=\"" + "20" + "\"} " + "1"
  {
    BoundaryTexts(HistogramOnlySpec());
    SmallTexts();
  }

  lemma HistogramOnlyBucket2(labels: seq<Label>, key: string, acc: HistogramAcc)
    requires |acc.buckets| == 10 && acc.buckets[2] == 1
    ensures BucketTexts(labels, key, HistogramOnlySpec(), acc)[2]
            == key + "_bucket{" + FormatLabels(labels) + ",le=\"" + "30" + "\"} " + "1"
  {
    BoundaryTexts(HistogramOnlySpec());
    SmallTexts();
  }

  lemma HistogramOnlyBucket3(labels: seq<Label>, key: string, acc: HistogramAcc)
    requires |acc.buckets| == 10 && acc.buckets[3] == 1
    ensures BucketTexts(labels, key, HistogramOnlySpec(), acc)[3]
            == key + "_bucket{" + FormatLabels(labels) + ",le=\"" + "40" + "\"} " + "1"
  {
    BoundaryTexts(HistogramOnlySpec());
    SmallTexts();
  }

  lemma HistogramOnlyBucket4(labels: seq<Label>, key: string, acc: HistogramAcc)
    requires |acc.buckets| == 10 && acc.buckets[4] == 1
    ensures BucketTexts(labels, key, HistogramOnlySpec(), acc)[4]
            == key + "_bucket{" + FormatLabels(labels) + ",le=\"" + "50" + "\"} " + "1"
  {
    BoundaryTexts(HistogramOnlySpec());
    SmallTexts();
  }

  lemma HistogramOnlyBucket5(labels: seq<Label>, key: string, acc: HistogramAcc)
    requires |acc.buckets| == 10 && acc.buckets[5] == 1
    ensures BucketTexts(labels, key, HistogramOnlySpec(), acc)[5]
            == key + "_bucket{" + FormatLabels(labels) + ",le=\"" + "60" + "\"} " + "1"
  {
    BoundaryTexts(HistogramOnlySpec());
    SmallTexts();
  }

  lemma HistogramOnlyBucket6(labels: seq<Label>, key: string, acc: HistogramAcc)
    requires |acc.buckets| == 10 && acc.buckets[6] == 1
    ensures BucketTexts(labels, key, HistogramOnlySpec(), acc)[6]
            == key + "_bucket{" + FormatLabels(labels) + ",le=\"" + "70" + "\"} " + "1"
  {
    BoundaryTexts(HistogramOnlySpec());
    SmallTexts();
  }

  lemma HistogramOnlyBucket7(labels: seq<Label>, key: string, acc: HistogramAcc)
    requires |acc.buckets| == 10 && acc.buckets[7] == 1
    ensures BucketTexts(labels, key, HistogramOnlySpec(), acc)[7]
            == key + "_bucket{" + FormatLabels(labels) + ",le=\"" + "80" + "\"} " + "1"
  {
    BoundaryTexts(HistogramOnlySpec());
    SmallTexts();
  }

  lemma HistogramOnlyBucket8(labels: seq<Label>, key: string, acc: HistogramAcc)
    requires |acc.buckets| == 10 && acc.buckets[8] == 1
    ensures BucketTexts(labels, key, HistogramOnlySpec(), acc)[8]
            == key + "_bucket{" + FormatLabels(labels) + ",le=\"" + "90" + "\"} " + "1"
  {
    BoundaryTexts(HistogramOnlySpec());
    SmallTexts();
  }

  lemma HistogramOnlyBucket9(labels: seq<Label>, key: string, acc: HistogramAcc)
    requires |acc.buckets| == 10 && acc.buckets[9] == 1
    ensures BucketTexts(labels, key, HistogramOnlySpec(), acc)[9]
            == key + "_bucket{" + FormatLabels(labels) + ",le=\"" + "100" + "\"} " + "1"
  {
    BoundaryTexts(HistogramOnlySpec());
    SmallTexts();
  }

  /** The bucket lines of `test.histogram.key2` after its one observation. */
  lemma HistogramOnlyBuckets(labels: seq<Label>, key: string, acc: HistogramAcc)
    requires acc.buckets == [1, 1, 1, 1, 1, 1, 1, 1, 1, 1]
    ensures var f := FormatLabels(labels);
      BucketTexts(labels, key, HistogramOnlySpec(), acc)
      == [ key + "_bucket{" + f + ",le=\"10\"} 1",
           key + "_bucket{" + f + ",le=\"20\"} 1",
           key + "_bucket{" + f + ",le=\"30\"} 1",
           key + "_bucket{" + f + ",le=\"40\"} 1",
           key + "_bucket{" + f + ",le=\"50\"} 1",
           key + "_bucket{" + f + ",le=\"60\"} 1",
           key + "_bucket{" + f + ",le=\"70\"} 1",
           key + "_bucket{" + f + ",le=\"80\"} 1",
           key + "_bucket{" + f + ",le=\"90\"} 1",
           key + "_bucket{" + f + ",le=\"100\"} 1" ]
  {
    var p := key + "_bucket{" + FormatLabels(labels);
    HistogramOnlyTails();
    HistogramOnlyBucket0(labels, key, acc); Regroup4(p, ",le=\"", "10", "\"} ", "1", ",le=\"10\"} 1");
    HistogramOnlyBucket1(labels, key, acc); Regroup4(p, ",le=\"", "20", "\"} ", "1", ",le=\"20\"} 1");
    HistogramOnlyBucket2(labels, key, acc); Regroup4(p, ",le=\"", "30", "\"} ", "1", ",le=\"30\"} 1");
    HistogramOnlyBucket3(labels, key, acc); Regroup4(p, ",le=\"", "40", "\"} ", "1", ",le=\"40\"} 1");
    HistogramOnlyBucket4(labels, key, acc); Regroup4(p, ",le=\"", "50", "\"} ", "1", ",le=\"50\"} 1");
    HistogramOnlyBucket5(labels, key, acc); Regroup4(p, ",le=\"", "60", "\"} ", "1", ",le=\"60\"} 1");
    HistogramOnlyBucket6(labels, key, acc); Regroup4(p, ",le=\"", "70", "\"} ", "1", ",le=\"70\"} 1");
    HistogramOnlyBucket7(labels, key, acc); Regroup4(p, ",le=\"", "80", "\"} ", "1", ",le=\"80\"} 1");
    HistogramOnlyBucket8(labels, key, acc); Regroup4(p, ",le=\"", "90", "\"} ", "1", ",le=\"90\"} 1");
    HistogramOnlyBucket9(labels, key, acc); Regroup4(p, ",le=\"", "100", "\"} ", "1", ",le=\"100\"} 1");
    TenLines(BucketTexts(labels, key, HistogramOnlySpec(), acc),
             p + ",le=\"10\"} 1",
             p + ",le=\"20\"} 1",
             p + ",le=\"30\"} 1",
             p + ",le=\"40\"} 1",
             p + ",le=\"50\"} 1",
             p + ",le=\"60\"} 1",
             p + ",le=\"70\"} 1",
             p + ",le=\"80\"} 1",
             p + ",le=\"90\"} 1",
             p + ",le=\"100\"} 1");
  }

  // ---------------------------------------------------------------------------
  // Headers, +Inf lines and percentiles

  /** The names of the two histograms as written on the page. */
  lemma Key1Name()
    ensures Sanitize("test.histogram.key1") == "test_histogram_key1"
  {
    var r := Sanitize("test.histogram.key1");
    forall i | 0 <= i < 19 ensures r[i] == "test_histogram_key1"[i] {
    }
  }

  lemma Key2Name()
    ensures Sanitize("test.histogram.key2") == "test_histogram_key2"
  {
    var r := Sanitize("test.histogram.key2");
    forall i | 0 <= i < 19 ensures r[i] == "test_histogram_key2"[i] {
    }
  }

  lemma HistogramHeaderText(n: string)
    ensures "# TYPE " + n + " " + "histogram" == "# TYPE " + n + " histogram"
  {
    assert "# TYPE " + n + " " + "histogram" == "# TYPE " + n + (" " + "histogram");
  }

  lemma Key2HeaderText()
    ensures "# TYPE " + "test_histogram_key2" + " " + "histogram" == "# TYPE test_histogram_key2 histogram"
  {
  }

  lemma SummaryHeaderText()
    ensures "# TYPE " + ("test_histogram_key1" + "_summary") + " " + "summary" == "# TYPE test_histogram_key1_summary summary"
  {
  }

  lemma ShortTails()
    ensures ",le=\"+Inf\"} " + "100" == ",le=\"+Inf\"} 100" && ",le=\"+Inf\"} " + "1" == ",le=\"+Inf\"} 1"
    ensures "} " + "1" == "} 1" && "} " + "10" == "} 10"
    ensures "_summary" + "_count{" == "_summary_count{" && "_summary" + "_sum{" == "_summary_sum{"
  {
  }

  lemma SummaryTexts()
    ensures "_summary" + "{" == "_summary{"
    ensures ",quantile=\"" + "0.5" + "\"} " + "50" == ",quantile=\"0.5\"} 50"
    ensures ",quantile=\"" + "0.99" + "\"} " + "85" == ",quantile=\"0.99\"} 85"
    ensures ",quantile=\"" + "1" + "\"} " + "85" == ",quantile=\"1\"} 85"
  {
  }

  /** The percentiles of the hundred records: the 50th is 50, the 99th and the
      100th are 85. */
  lemma SummaryQuantileValues(acc: HistogramAcc)
    requires ValidGeometry(SummarySpec()) && Summarizes(SummarySpec(), Records(100), acc)
    ensures QuantileValue(acc.samples, 50) == Some(50)
    ensures QuantileValue(acc.samples, 99) == Some(85)
    ensures QuantileValue(acc.samples, 100) == Some(85)
  {
    var h := Records(100);
    assert Rank(50, 100) == 50 && Rank(99, 100) == 99 && Rank(100, 100) == 100;
    RecordsAtMost(49); RecordsAtMost(50); RecordsAtMost(84); RecordsAtMost(85);
    QuantileIsRankValue(SummarySpec(), h, acc, 50);
    RankValueUnique(h, 50, QuantileValue(acc.samples, 50).value, 50);
    QuantileIsRankValue(SummarySpec(), h, acc, 99);
    RankValueUnique(h, 99, QuantileValue(acc.samples, 99).value, 85);
    QuantileIsRankValue(SummarySpec(), h, acc, 100);
    RankValueUnique(h, 100, QuantileValue(acc.samples, 100).value, 85);
  }

  lemma SummaryQuantile(labels: seq<Label>, n: string, acc: HistogramAcc, j: nat, q: nat, text: string, value: string)
    requires j < 3 && SummarySpec().quantiles[j] == q && QuantileLabel(q) == text
    requires ValueText(QuantileValue(acc.samples, q)) == value
    ensures QuantileTexts(labels, n, SummarySpec(), acc)[j]
            == n + "{" + FormatLabels(labels) + ",quantile=\"" + text + "\"} " + value
  {
  }

  lemma Median(labels: seq<Label>, k1: string, acc: HistogramAcc)
    requires QuantileValue(acc.samples, 50) == Some(50)
    ensures QuantileTexts(labels, k1 + "_summary", SummarySpec(), acc)[0]
            == k1 + "_summary{" + FormatLabels(labels) + ",quantile=\"0.5\"} 50"
  {
    var p := k1 + "_summary{" + FormatLabels(labels);
    assert QuantileLabel(50) == "0.5" && NatToString(50) == "50";
    SummaryQuantile(labels, k1 + "_summary", acc, 0, 50, "0.5", "50");
    SummaryTexts();
    Regroup2(k1, "_summary", "{", "_summary{");
    Regroup4(p, ",quantile=\"", "0.5", "\"} ", "50", ",quantile=\"0.5\"} 50");
  }

  lemma Percentile99(labels: seq<Label>, k1: string, acc: HistogramAcc)
    requires QuantileValue(acc.samples, 99) == Some(85)
    ensures QuantileTexts(labels, k1 + "_summary", SummarySpec(), acc)[1]
            == k1 + "_summary{" + FormatLabels(labels) + ",quantile=\"0.99\"} 85"
  {
    var p := k1 + "_summary{" + FormatLabels(labels);
    assert QuantileLabel(99) == "0.99" && NatToString(85) == "85";
    SummaryQuantile(labels, k1 + "_summary", acc, 1, 99, "0.99", "85");
    SummaryTexts();
    Regroup2(k1, "_summary", "{", "_summary{");
    Regroup4(p, ",quantile=\"", "0.99", "\"} ", "85", ",quantile=\"0.99\"} 85");
  }

  lemma Maximum(labels: seq<Label>, k1: string, acc: HistogramAcc)
    requires QuantileValue(acc.samples, 100) == Some(85)
    ensures QuantileTexts(labels, k1 + "_summary", SummarySpec(), acc)[2]
            == k1 + "_summary{" + FormatLabels(labels) + ",quantile=\"1\"} 85"
  {
    var p := k1 + "_summary{" + FormatLabels(labels);
    assert QuantileLabel(100) == "1" && NatToString(85) == "85";
    SummaryQuantile(labels, k1 + "_summary", acc, 2, 100, "1", "85");
    SummaryTexts();
    Regroup2(k1, "_summary", "{", "_summary{");
    Regroup4(p, ",quantile=\"", "1", "\"} ", "85", ",quantile=\"1\"} 85");
  }

  /** The percentile lines of `test.histogram.key1`. */
  lemma SummaryQuantiles(labels: seq<Label>, k1: string, acc: HistogramAcc)
    requires ValidGeometry(SummarySpec()) && Summarizes(SummarySpec(), Records(100), acc)
    ensures var f := FormatLabels(labels);
      QuantileTexts(labels, k1 + "_summary", SummarySpec(), acc)
      == [ k1 + "_summary{" + f + ",quantile=\"0.5\"} 50",
           k1 + "_summary{" + f + ",quantile=\"0.99\"} 85",
           k1 + "_summary{" + f + ",quantile=\"1\"} 85" ]
  {
    SummaryQuantileValues(acc);
    Median(labels, k1, acc);
    Percentile99(labels, k1, acc);
    Maximum(labels, k1, acc);
  }

  // ---------------------------------------------------------------------------
  // The three blocks

  /** The histogram block of `test.histogram.key1`. */
  lemma SummaryHistogramBlock(labels: seq<Label>, k1: string, acc: HistogramAcc)
    requires labels != [] && k1 == Sanitize("test.histogram.key1")
    requires ValidGeometry(SummarySpec()) && Summarizes(SummarySpec(), Records(100), acc)
    ensures var f := FormatLabels(labels);
      Texts(labels, HistogramBlock("test.histogram.key1", SummarySpec(), acc))
      == [ "# TYPE " + k1 + " histogram",
           k1 + "_count{" + f + "} " + NatToString(100),
           k1 + "_sum{" + f + "} " + NatToString(acc.sum) ]
         + [ k1 + "_bucket{" + f + ",le=\"10\"} 0",
             k1 + "_bucket{" + f + ",le=\"20\"} 20",
             k1 + "_bucket{" + f + ",le=\"30\"} 20",
             k1 + "_bucket{" + f + ",le=\"40\"} 20",
             k1 + "_bucket{" + f + ",le=\"50\"} 50",
             k1 + "_bucket{" + f + ",le=\"60\"} 50",
             k1 + "_bucket{" + f + ",le=\"70\"} 50",
             k1 + "_bucket{" + f + ",le=\"80\"} 50",
             k1 + "_bucket{" + f + ",le=\"90\"} 100",
             k1 + "_bucket{" + f + ",le=\"100\"} 100" ]
         + [ k1 + "_bucket{" + f + ",le=\"+Inf\"} 100" ]
  {
    var f := FormatLabels(labels);
    HistogramBlockText(labels, "test.histogram.key1", SummarySpec(), acc);
    SummaryCounts(acc);
    SummaryBuckets(labels, k1, acc);
    HistogramHeaderText(k1);
    SmallTexts();
    ShortTails();
    Regroup2(k1 + "_bucket{" + f, ",le=\"+Inf\"} ", "100", ",le=\"+Inf\"} 100");
  }

  /** The histogram block of `test.histogram.key2`. */
  lemma HistogramOnlyBlock(labels: seq<Label>, k2: string, acc: HistogramAcc)
    requires labels != [] && k2 == Sanitize("test.histogram.key2")
    requires ValidGeometry(HistogramOnlySpec()) && Summarizes(HistogramOnlySpec(), [10], acc)
    ensures var f := FormatLabels(labels);
      Texts(labels, HistogramBlock("test.histogram.key2", HistogramOnlySpec(), acc))
      == [ "# TYPE test_histogram_key2 histogram",
           k2 + "_count{" + f + "} 1",
           k2 + "_sum{" + f + "} 10" ]
         + [ k2 + "_bucket{" + f + ",le=\"10\"} 1",
             k2 + "_bucket{" + f + ",le=\"20\"} 1",
             k2 + "_bucket{" + f + ",le=\"30\"} 1",
             k2 + "_bucket{" + f + ",le=\"40\"} 1",
             k2 + "_bucket{" + f + ",le=\"50\"} 1",
             k2 + "_bucket{" + f + ",le=\"60\"} 1",
             k2 + "_bucket{" + f + ",le=\"70\"} 1",
             k2 + "_bucket{" + f + ",le=\"80\"} 1",
             k2 + "_bucket{" + f + ",le=\"90\"} 1",
             k2 + "_bucket{" + f + ",le=\"100\"} 1" ]
         + [ k2 + "_bucket{" + f + ",le=\"+Inf\"} 1" ]
  {
    var f := FormatLabels(labels);
    HistogramBlockText(labels, "test.histogram.key2", HistogramOnlySpec(), acc);
    HistogramOnlyCounts(acc);
    HistogramOnlyBuckets(labels, k2, acc);
    assert acc.count == 1 && acc.sum == 10;
    Key2Name();
    Key2HeaderText();
    SmallTexts();
    ShortTails();
    Regroup2(k2 + "_count{" + f, "} ", "1", "} 1");
    Regroup2(k2 + "_sum{" + f, "} ", "10", "} 10");
    Regroup2(k2 + "_bucket{" + f, ",le=\"+Inf\"} ", "1", ",le=\"+Inf\"} 1");
  }

  /** The percentile block of `test.histogram.key1`. */
  lemma SummaryBlockLines(labels: seq<Label>, k1: string, acc: HistogramAcc)
    requires labels != [] && k1 == Sanitize("test.histogram.key1")
    requires ValidGeometry(SummarySpec()) && Summarizes(SummarySpec(), Records(100), acc)
    ensures var f := FormatLabels(labels);
      Texts(labels, SummaryBlock("test.histogram.key1", SummarySpec(), acc))
      == [ "# TYPE test_histogram_key1_summary summary",
           k1 + "_summary_count{" + f + "} " + NatToString(100),
           k1 + "_summary_sum{" + f + "} " + NatToString(acc.sum) ]
         + [ k1 + "_summary{" + f + ",quantile=\"0.5\"} 50",
             k1 + "_summary{" + f + ",quantile=\"0.99\"} 85",
             k1 + "_summary{" + f + ",quantile=\"1\"} 85" ]
  {
    var f := FormatLabels(labels);
    SummaryBlockText(labels, "test.histogram.key1", SummarySpec(), acc);
    SummaryQuantiles(labels, k1, acc);
    Key1Name();
    SummaryHeaderText();
    ShortTails();
    Regroup2(k1, "_summary", "_count{", "_summary_count{");
    Regroup2(k1, "_summary", "_sum{", "_summary_sum{");
  }

  // ---------------------------------------------------------------------------
  // The second page

  /** The two histograms as the reporter holds them after the test's second
      phase, in registration order. */
  function HistogramEntries(acc1: HistogramAcc, acc2: HistogramAcc): seq<Entry> {
    [ HistogramEntry("test.histogram.key1", SummarySpec(), acc1),
      HistogramEntry("test.histogram.key2", HistogramOnlySpec(), acc2) ]
  }

  lemma ScalarEntriesSections()
    ensures WellFormed(ScalarEntries())
    ensures HistogramSection(ScalarEntries()) == [] && SummarySection(ScalarEntries()) == []
  {
    var es := ScalarEntries();
    assert es[1..][1..][1..][1..] == [];
  }

  /** A histogram entry contributes no scalar lines, its histogram block
      and its percentile block. */
  lemma OneHistogramSections(e: Entry)
    requires e.HistogramEntry? && WellFormedEntry(e)
    ensures WellFormed([e])
    ensures ScalarSection([e]) == []
    ensures HistogramSection([e]) == HistogramBlock(e.name, e.spec, e.acc)
    ensures SummarySection([e]) == SummaryBlock(e.name, e.spec, e.acc)
  {
    assert [e][1..] == [];
  }

  lemma HistogramEntriesSections(acc1: HistogramAcc, acc2: HistogramAcc)
    requires |acc1.buckets| == 10 && |acc2.buckets| == 10
    ensures ValidGeometry(SummarySpec()) && ValidGeometry(HistogramOnlySpec())
    ensures WellFormed(HistogramEntries(acc1, acc2))
    ensures ScalarSection(HistogramEntries(acc1, acc2)) == []
    ensures HistogramSection(HistogramEntries(acc1, acc2))
            == HistogramBlock("test.histogram.key1", SummarySpec(), acc1)
               + HistogramBlock("test.histogram.key2", HistogramOnlySpec(), acc2)
    ensures SummarySection(HistogramEntries(acc1, acc2)) == SummaryBlock("test.histogram.key1", SummarySpec(), acc1)
  {
    TestBoundaries(SummarySpec());
    TestBoundaries(HistogramOnlySpec());
    var e1 := HistogramEntry("test.histogram.key1", SummarySpec(), acc1);
    var e2 := HistogramEntry("test.histogram.key2", HistogramOnlySpec(), acc2);
    OneHistogramSections(e1);
    OneHistogramSections(e2);
    SectionsConcat([e1], [e2]);
    assert [e1] + [e2] == HistogramEntries(acc1, acc2);
    assert SummaryBlock(e2.name, e2.spec, e2.acc) == [];
  }

  /** A list of 34 lines cut into the three histogram-phase blocks. */
  lemma Layout34(a0: string, a1: string, a2: string, a3: string, a4: string, a5: string, a6: string, a7: string, a8: string, a9: string, a10: string, a11: string, a12: string, a13: string, a14: string, a15: string, a16: string, a17: string, a18: string, a19: string, a20: string, a21: string, a22: string, a23: string, a24: string, a25: string, a26: string, a27: string, a28: string, a29: string, a30: string, a31: string, a32: string, a33: string)
    ensures [a0, a1, a2, a3, a4, a5, a6, a7, a8, a9, a10, a11, a12, a13, a14, a15, a16, a17, a18, a19, a20, a21, a22, a23, a24, a25, a26, a27, a28, a29, a30, a31, a32, a33]
      == ([a0, a1, a2] + [a3, a4, a5, a6, a7, a8, a9, a10, a11, a12] + [a13]) + ([a14, a15, a16] + [a17, a18, a19, a20, a21, a22, a23, a24, a25, a26] + [a27]) + ([a28, a29, a30] + [a31, a32, a33])
  {
  }

  /** The test's expected histogram lines, cut where the blocks meet. */
  lemma ExpectedHistogramParts(k1: string, k2: string, f: string, sum: nat)
    ensures HistogramMetricsFormatted(k1, k2, f, 100, sum)
      == ([ "# TYPE " + k1 + " histogram",
              k1 + "_count{" + f + "} " + NatToString(100),
              k1 + "_sum{" + f + "} " + NatToString(sum) ]
          + [ k1 + "_bucket{" + f + ",le=\"10\"} 0",
              k1 + "_bucket{" + f + ",le=\"20\"} 20",
              k1 + "_bucket{" + f + ",le=\"30\"} 20",
              k1 + "_bucket{" + f + ",le=\"40\"} 20",
              k1 + "_bucket{" + f + ",le=\"50\"} 50",
              k1 + "_bucket{" + f + ",le=\"60\"} 50",
              k1 + "_bucket{" + f + ",le=\"70\"} 50",
              k1 + "_bucket{" + f + ",le=\"80\"} 50",
              k1 + "_bucket{" + f + ",le=\"90\"} 100",
              k1 + "_bucket{" + f + ",le=\"100\"} 100" ]
          + [ k1 + "_bucket{" + f + ",le=\"+Inf\"} 100" ])
       + ([ "# TYPE test_histogram_key2 histogram",
              k2 + "_count{" + f + "} 1",
              k2 + "_sum{" + f + "} 10" ]
          + [ k2 + "_bucket{" + f + ",le=\"10\"} 1",
              k2 + "_bucket{" + f + ",le=\"20\"} 1",
              k2 + "_bucket{" + f + ",le=\"30\"} 1",
              k2 + "_bucket{" + f + ",le=\"40\"} 1",
              k2 + "_bucket{" + f + ",le=\"50\"} 1",
              k2 + "_bucket{" + f + ",le=\"60\"} 1",
              k2 + "_bucket{" + f + ",le=\"70\"} 1",
              k2 + "_bucket{" + f + ",le=\"80\"} 1",
              k2 + "_bucket{" + f + ",le=\"90\"} 1",
              k2 + "_bucket{" + f + ",le=\"100\"} 1" ]
          + [ k2 + "_bucket{" + f + ",le=\"+Inf\"} 1" ])
       + ([ "# TYPE test_histogram_key1_summary summary",
              k1 + "_summary_count{" + f + "} " + NatToString(100),
              k1 + "_summary_sum{" + f + "} " + NatToString(sum) ]
          + [ k1 + "_summary{" + f + ",quantile=\"0.5\"} 50",
              k1 + "_summary{" + f + ",quantile=\"0.99\"} 85",
              k1 + "_summary{" + f + ",quantile=\"1\"} 85" ])
  {
    Layout34("# TYPE " + k1 + " histogram",
             k1 + "_count{" + f + "} " + NatToString(100),
             k1 + "_sum{" + f + "} " + NatToString(sum),
             k1 + "_bucket{" + f + ",le=\"10\"} 0",
             k1 + "_bucket{" + f + ",le=\"20\"} 20",
             k1 + "_bucket{" + f + ",le=\"30\"} 20",
             k1 + "_bucket{" + f + ",le=\"40\"} 20",
             k1 + "_bucket{" + f + ",le=\"50\"} 50",
             k1 + "_bucket{" + f + ",le=\"60\"} 50",
             k1 + "_bucket{" + f + ",le=\"70\"} 50",
             k1 + "_bucket{" + f + ",le=\"80\"} 50",
             k1 + "_bucket{" + f + ",le=\"90\"} 100",
             k1 + "_bucket{" + f + ",le=\"100\"} 100",
             k1 + "_bucket{" + f + ",le=\"+Inf\"} 100",
             "# TYPE test_histogram_key2 histogram",
             k2 + "_count{" + f + "} 1",
             k2 + "_sum{" + f + "} 10",
             k2 + "_bucket{" + f + ",le=\"10\"} 1",
             k2 + "_bucket{" + f + ",le=\"20\"} 1",
             k2 + "_bucket{" + f + ",le=\"30\"} 1",
             k2 + "_bucket{" + f + ",le=\"40\"} 1",
             k2 + "_bucket{" + f + ",le=\"50\"} 1",
             k2 + "_bucket{" + f + ",le=\"60\"} 1",
             k2 + "_bucket{" + f + ",le=\"70\"} 1",
             k2 + "_bucket{" + f + ",le=\"80\"} 1",
             k2 + "_bucket{" + f + ",le=\"90\"} 1",
             k2 + "_bucket{" + f + ",le=\"100\"} 1",
             k2 + "_bucket{" + f + ",le=\"+Inf\"} 1",
             "# TYPE test_histogram_key1_summary summary",
             k1 + "_summary_count{" + f + "} " + NatToString(100),
             k1 + "_summary_sum{" + f + "} " + NatToString(sum),
             k1 + "_summary{" + f + ",quantile=\"0.5\"} 50",
             k1 + "_summary{" + f + ",quantile=\"0.99\"} 85",
             k1 + "_summary{" + f + ",quantile=\"1\"} 85");
  }

  /** A page is the text of its three sections, one after the other. */
  lemma PageOfSections(labels: seq<Label>, es: seq<Entry>, ss: seq<Line>, hs: seq<Line>, ms: seq<Line>)
    requires WellFormed(es)
    requires ScalarSection(es) == ss && HistogramSection(es) == hs && SummarySection(es) == ms
    ensures Texts(labels, Serialize(es)) == Texts(labels, ss) + Texts(labels, hs) + Texts(labels, ms)
  {
    TextsConcat(labels, ss + hs, ms);
    TextsConcat(labels, ss, hs);
  }

  /** Scalars followed by histograms: the page is the scalar section, then
      the histogram blocks, then the percentile blocks. */
  lemma ScalarsThenHistograms(labels: seq<Label>, se: seq<Entry>, he: seq<Entry>,
                              ss: seq<Line>, hb1: seq<Line>, hb2: seq<Line>, sb: seq<Line>)
    requires WellFormed(se) && WellFormed(he)
    requires ScalarSection(se) == ss && HistogramSection(se) == [] && SummarySection(se) == []
    requires ScalarSection(he) == [] && HistogramSection(he) == hb1 + hb2 && SummarySection(he) == sb
    ensures WellFormed(se + he)
    ensures Texts(labels, Serialize(se + he))
            == Texts(labels, ss) + (Texts(labels, hb1) + Texts(labels, hb2) + Texts(labels, sb))
  {
    SectionsConcat(se, he);
    assert ss + [] == ss;
    assert [] + (hb1 + hb2) == hb1 + hb2;
    assert [] + sb == sb;
    PageOfSections(labels, se + he, ss, hb1 + hb2, sb);
    TextsConcat(labels, hb1, hb2);
  }

  /** The second page is the scalar section, the two histogram blocks and
      the percentile block, each turned into text on its own. */
  lemma SecondPageParts(labels: seq<Label>, acc1: HistogramAcc, acc2: HistogramAcc)
    requires |acc1.buckets| == 10 && |acc2.buckets| == 10
    ensures ValidGeometry(SummarySpec()) && ValidGeometry(HistogramOnlySpec())
    ensures WellFormed(ScalarEntries() + HistogramEntries(acc1, acc2))
    ensures Texts(labels, Serialize(ScalarEntries() + HistogramEntries(acc1, acc2)))
            == Texts(labels, ScalarSection(ScalarEntries()))
               + (Texts(labels, HistogramBlock("test.histogram.key1", SummarySpec(), acc1))
                  + Texts(labels, HistogramBlock("test.histogram.key2", HistogramOnlySpec(), acc2))
                  + Texts(labels, SummaryBlock("test.histogram.key1", SummarySpec(), acc1)))
  {
    ScalarEntriesSections();
    HistogramEntriesSections(acc1, acc2);
    ScalarsThenHistograms(labels, ScalarEntries(), HistogramEntries(acc1, acc2),
                          ScalarSection(ScalarEntries()),
                          HistogramBlock("test.histogram.key1", SummarySpec(), acc1),
                          HistogramBlock("test.histogram.key2", HistogramOnlySpec(), acc2),
                          SummaryBlock("test.histogram.key1", SummarySpec(), acc1));
  }

  /** The second page, line for line: the four scalars as before, then the
      two histogram blocks in registration order, then the one percentile
      block. */
  lemma SecondPageLines(labels: seq<Label>, k1: string, k2: string, acc1: HistogramAcc, acc2: HistogramAcc)
    requires labels != [] && k1 == Sanitize("test.histogram.key1") && k2 == Sanitize("test.histogram.key2")
    requires ValidGeometry(SummarySpec()) && Summarizes(SummarySpec(), Records(100), acc1)
    requires ValidGeometry(HistogramOnlySpec()) && Summarizes(HistogramOnlySpec(), [10], acc2)
    ensures WellFormed(ScalarEntries() + HistogramEntries(acc1, acc2))
    ensures Texts(labels, Serialize(ScalarEntries() + HistogramEntries(acc1, acc2)))
            == Expected(FormatLabels(labels)) + HistogramMetricsFormatted(k1, k2, FormatLabels(labels), 100, acc1.sum)
  {
    SecondPageParts(labels, acc1, acc2);
    ScalarLines(labels);
    SummaryHistogramBlock(labels, k1, acc1);
    HistogramOnlyBlock(labels, k2, acc2);
    SummaryBlockLines(labels, k1, acc1);
    ExpectedHistogramParts(k1, k2, FormatLabels(labels), acc1.sum);
  }
}
