/** `getSerializedMetrics`: the rendering of a snapshot of the registry into the
    Prometheus text exposition format. Scalars come first in registration order,
    then every histogram block, then every summary block. */
module Serializer {
  import opened Wrappers
  import opened Exposition
  import opened Accumulators

  /** A registered metric as the serializer sees it. */
  datatype Entry =
    | ScalarEntry(name: string, kind: StatType, value: nat)
    | HistogramEntry(name: string, spec: HistogramSpec, acc: HistogramAcc)

  predicate WellFormedEntry(e: Entry) {
    e.HistogramEntry? ==> ValidSpec(e.spec) && |e.acc.buckets| == e.spec.bucketCount
  }

  predicate WellFormed(es: seq<Entry>) {
    forall i :: 0 <= i < |es| ==> WellFormedEntry(es[i])
  }

  /** One line of the page before the label set is written into it: a type
      header, or a sample with an optional extra label (`le` or `quantile`). */
  datatype Line =
    | TypeLine(name: string, promType: string)
    | SampleLine(name: string, extra: Option<Label>, value: string)

  /** The text of a line; a sample carries the configured labels, then its
      extra label, inside braces. */
  function LineText(labels: seq<Label>, line: Line): string {
    match line
    case TypeLine(n, t) => "# TYPE " + n + " " + t
    case SampleLine(n, extra, v) => SampleText(n, labels + ExtraLabels(extra), v)
  }

  function ExtraLabels(extra: Option<Label>): seq<Label> {
    if extra.Some? then [extra.value] else []
  }

  /** A sample: name, the label pairs in braces unless there are none, value. */
  function SampleText(n: string, pairs: seq<Label>, v: string): string {
    if pairs == [] then n + " " + v else n + "{" + FormatLabels(pairs) + "} " + v
  }

  /** With a non-empty label set, every sample line holds the label set's text
      unchanged, followed by its own extra label. */
  lemma SampleLineCarriesLabels(labels: seq<Label>, n: string, extra: Option<Label>, v: string)
    requires labels != []
    ensures LineText(labels, SampleLine(n, extra, v)) ==
            n + "{" + FormatLabels(labels) + (if extra.Some? then "," + LabelPair(extra.value) else "") + "} " + v
  {
    var pairs := labels + ExtraLabels(extra);
    if extra.Some? {
      assert pairs[..|pairs| - 1] == labels;
      assert FormatLabels(pairs) == FormatLabels(labels) + "," + LabelPair(extra.value);
    } else {
      assert pairs == labels;
    }
    assert LineText(labels, SampleLine(n, extra, v)) == n + "{" + FormatLabels(pairs) + "} " + v;
  }

  function ValueText(v: Option<nat>): string {
    if v.Some? then NatToString(v.value) else "NaN"
  }

  function ScalarBlock(name: string, kind: StatType, value: nat): seq<Line> {
    var n := Sanitize(name);
    [TypeLine(n, PrometheusType(kind)), SampleLine(n, None, NatToString(value))]
  }

  function BucketLine(n: string, spec: HistogramSpec, acc: HistogramAcc, i: nat): Line
    requires ValidGeometry(spec) && i < |acc.buckets|
  {
    SampleLine(n + "_bucket", Some(Label("le", IntToString(Boundary(spec, i)))), NatToString(acc.buckets[i]))
  }

  function HistogramBlock(name: string, spec: HistogramSpec, acc: HistogramAcc): seq<Line>
    requires ValidGeometry(spec) && |acc.buckets| == spec.bucketCount
  {
    var n := Sanitize(name);
    [ TypeLine(n, "histogram"),
      SampleLine(n + "_count", None, NatToString(acc.count)),
      SampleLine(n + "_sum", None, NatToString(acc.sum)) ]
    + seq(spec.bucketCount, i requires 0 <= i < spec.bucketCount => BucketLine(n, spec, acc, i))
    + [ SampleLine(n + "_bucket", Some(Label("le", "+Inf")), NatToString(acc.count)) ]
  }

  function QuantileLine(n: string, acc: HistogramAcc, q: nat): Line
    requires q <= 100
  {
    SampleLine(n, Some(Label("quantile", QuantileLabel(q))), ValueText(QuantileValue(acc.samples, q)))
  }

  function SummaryBlock(name: string, spec: HistogramSpec, acc: HistogramAcc): seq<Line>
    requires ValidQuantiles(spec.quantiles)
  {
    if spec.quantiles == [] then []
    else
      var n := Sanitize(name) + "_summary";
      [ TypeLine(n, "summary"),
        SampleLine(n + "_count", None, NatToString(acc.count)),
        SampleLine(n + "_sum", None, NatToString(acc.sum)) ]
      + seq(|spec.quantiles|, i requires 0 <= i < |spec.quantiles| => QuantileLine(n, acc, spec.quantiles[i]))
  }

  function ScalarSection(es: seq<Entry>): seq<Line> {
    if es == [] then []
    else
      (if es[0].ScalarEntry? then ScalarBlock(es[0].name, es[0].kind, es[0].value) else [])
      + ScalarSection(es[1..])
  }

  function HistogramSection(es: seq<Entry>): seq<Line>
    requires WellFormed(es)
  {
    if es == [] then []
    else
      (if es[0].HistogramEntry? then HistogramBlock(es[0].name, es[0].spec, es[0].acc) else [])
      + HistogramSection(es[1..])
  }

  function SummarySection(es: seq<Entry>): seq<Line>
    requires WellFormed(es)
  {
    if es == [] then []
    else
      (if es[0].HistogramEntry? then SummaryBlock(es[0].name, es[0].spec, es[0].acc) else [])
      + SummarySection(es[1..])
  }

  /** Each section of a concatenation of snapshots is the concatenation of
      their sections. */
  lemma SectionsConcat(a: seq<Entry>, b: seq<Entry>)
    requires WellFormed(a) && WellFormed(b)
    ensures WellFormed(a + b)
    ensures ScalarSection(a + b) == ScalarSection(a) + ScalarSection(b)
    ensures HistogramSection(a + b) == HistogramSection(a) + HistogramSection(b)
    ensures SummarySection(a + b) == SummarySection(a) + SummarySection(b)
  {
    ScalarSectionConcat(a, b);
    HistogramSectionConcat(a, b);
    SummarySectionConcat(a, b);
  }

  lemma {:induction false} ScalarSectionConcat(a: seq<Entry>, b: seq<Entry>)
    ensures ScalarSection(a + b) == ScalarSection(a) + ScalarSection(b)
    decreases |a|
  {
    if a == [] {
      assert a + b == b;
    } else {
      assert (a + b)[0] == a[0] && (a + b)[1..] == a[1..] + b;
      ScalarSectionConcat(a[1..], b);
      var head := if a[0].ScalarEntry? then ScalarBlock(a[0].name, a[0].kind, a[0].value) else [];
      assert ScalarSection(a + b) == head + ScalarSection(a[1..] + b);
      AppendAssociative(head, ScalarSection(a[1..]), ScalarSection(b));
    }
  }

  lemma {:induction false} HistogramSectionConcat(a: seq<Entry>, b: seq<Entry>)
    requires WellFormed(a) && WellFormed(b)
    ensures WellFormed(a + b)
    ensures HistogramSection(a + b) == HistogramSection(a) + HistogramSection(b)
    decreases |a|
  {
    if a == [] {
      assert a + b == b;
    } else {
      assert (a + b)[0] == a[0] && (a + b)[1..] == a[1..] + b;
      assert WellFormedEntry(a[0]);
      HistogramSectionConcat(a[1..], b);
      var head := if a[0].HistogramEntry? then HistogramBlock(a[0].name, a[0].spec, a[0].acc) else [];
      assert HistogramSection(a + b) == head + HistogramSection(a[1..] + b);
      AppendAssociative(head, HistogramSection(a[1..]), HistogramSection(b));
    }
  }

  lemma {:induction false} SummarySectionConcat(a: seq<Entry>, b: seq<Entry>)
    requires WellFormed(a) && WellFormed(b)
    ensures WellFormed(a + b)
    ensures SummarySection(a + b) == SummarySection(a) + SummarySection(b)
    decreases |a|
  {
    if a == [] {
      assert a + b == b;
    } else {
      assert (a + b)[0] == a[0] && (a + b)[1..] == a[1..] + b;
      assert WellFormedEntry(a[0]);
      SummarySectionConcat(a[1..], b);
      var head := if a[0].HistogramEntry? then SummaryBlock(a[0].name, a[0].spec, a[0].acc) else [];
      assert SummarySection(a + b) == head + SummarySection(a[1..] + b);
      AppendAssociative(head, SummarySection(a[1..]), SummarySection(b));
    }
  }

  /** All lines of one serialization. */
  function Serialize(es: seq<Entry>): (lines: seq<Line>)
    requires WellFormed(es)
    ensures forall i :: 0 <= i < |es| && es[i].ScalarEntry? ==>
      TypeLine(Sanitize(es[i].name), PrometheusType(es[i].kind)) in lines
    ensures forall i :: 0 <= i < |es| && es[i].HistogramEntry? ==>
      TypeLine(Sanitize(es[i].name), "histogram") in lines
    ensures forall i :: 0 <= i < |es| && es[i].HistogramEntry? && es[i].spec.quantiles != [] ==>
      TypeLine(Sanitize(es[i].name) + "_summary", "summary") in lines
  {
    ScalarTypeLines(es);
    HistogramTypeLines(es);
    SummaryTypeLines(es);
    ScalarSection(es) + HistogramSection(es) + SummarySection(es)
  }

  /** Every scalar's `# TYPE` line, with its Prometheus type, is in the scalar section. */
  lemma {:induction false} ScalarTypeLines(es: seq<Entry>)
    ensures forall i :: 0 <= i < |es| && es[i].ScalarEntry? ==>
      TypeLine(Sanitize(es[i].name), PrometheusType(es[i].kind)) in ScalarSection(es)
    decreases |es|
  {
    if es != [] {
      ScalarTypeLines(es[1..]);
      forall i | 1 <= i < |es| && es[i].ScalarEntry?
        ensures TypeLine(Sanitize(es[i].name), PrometheusType(es[i].kind)) in ScalarSection(es)
      {
        assert es[i] == es[1..][i - 1];
      }
    }
  }

  /** Every histogram's `# TYPE … histogram` line is in the histogram section. */
  lemma {:induction false} HistogramTypeLines(es: seq<Entry>)
    requires WellFormed(es)
    ensures forall i :: 0 <= i < |es| && es[i].HistogramEntry? ==>
      TypeLine(Sanitize(es[i].name), "histogram") in HistogramSection(es)
    decreases |es|
  {
    if es != [] {
      assert WellFormedEntry(es[0]);
      HistogramTypeLines(es[1..]);
      forall i | 1 <= i < |es| && es[i].HistogramEntry?
        ensures TypeLine(Sanitize(es[i].name), "histogram") in HistogramSection(es)
      {
        assert es[i] == es[1..][i - 1];
      }
    }
  }

  /** Every histogram with percentiles has its `# TYPE … summary` line in the
      summary section. */
  lemma {:induction false} SummaryTypeLines(es: seq<Entry>)
    requires WellFormed(es)
    ensures forall i :: 0 <= i < |es| && es[i].HistogramEntry? && es[i].spec.quantiles != [] ==>
      TypeLine(Sanitize(es[i].name) + "_summary", "summary") in SummarySection(es)
    decreases |es|
  {
    if es != [] {
      assert WellFormedEntry(es[0]);
      SummaryTypeLines(es[1..]);
      forall i | 1 <= i < |es| && es[i].HistogramEntry? && es[i].spec.quantiles != []
        ensures TypeLine(Sanitize(es[i].name) + "_summary", "summary") in SummarySection(es)
      {
        assert es[i] == es[1..][i - 1];
      }
    }
  }

  /** The text of every line, in order. */
  function Texts(labels: seq<Label>, lines: seq<Line>): (ts: seq<string>)
    ensures |ts| == |lines|
    ensures forall i :: 0 <= i < |lines| ==> ts[i] == LineText(labels, lines[i])
  {
    seq(|lines|, i requires 0 <= i < |lines| => LineText(labels, lines[i]))
  }

  lemma TextsConcat(labels: seq<Label>, a: seq<Line>, b: seq<Line>)
    ensures Texts(labels, a + b) == Texts(labels, a) + Texts(labels, b)
  {
  }

  /** The page `getSerializedMetrics` returns: each line followed by a newline. */
  function Page(labels: seq<Label>, es: seq<Entry>): (page: string)
    requires WellFormed(es)
    ensures es != [] ==> page != [] && page[|page| - 1] == '\n'
  {
    Render(Texts(labels, Serialize(es)))
  }

  // ---------------------------------------------------------------------------
  // Layout of the page

  /** The scalar entries, in the order they were registered. */
  function Scalars(es: seq<Entry>): (r: seq<Entry>)
    ensures forall k :: 0 <= k < |r| ==> r[k].ScalarEntry?
    ensures forall e :: e in r <==> e in es && e.ScalarEntry?
    decreases |es|
  {
    if es == [] then []
    else (if es[0].ScalarEntry? then [es[0]] else []) + Scalars(es[1..])
  }

  /** Each scalar, in registration order, is a `# TYPE` line followed by its
      one sample line, which shows its value. */
  lemma {:induction false} ScalarSectionLayout(es: seq<Entry>)
    ensures |ScalarSection(es)| == 2 * |Scalars(es)|
    ensures forall k :: 0 <= k < |Scalars(es)| ==>
      var e := Scalars(es)[k];
      ScalarSection(es)[2 * k] == TypeLine(Sanitize(e.name), PrometheusType(e.kind))
      && ScalarSection(es)[2 * k + 1] == SampleLine(Sanitize(e.name), None, NatToString(e.value))
    decreases |es|
  {
    if es != [] {
      ScalarSectionLayout(es[1..]);
      if es[0].ScalarEntry? {
        var lines, rest := ScalarSection(es[1..]), Scalars(es[1..]);
        assert ScalarSection(es) == ScalarBlock(es[0].name, es[0].kind, es[0].value) + lines;
        assert Scalars(es) == [es[0]] + rest;
        forall k | 1 <= k < |Scalars(es)|
          ensures Scalars(es)[k] == rest[k - 1]
          ensures ScalarSection(es)[2 * k] == lines[2 * (k - 1)]
          ensures ScalarSection(es)[2 * k + 1] == lines[2 * (k - 1) + 1]
        {
        }
      } else {
        assert Scalars(es) == Scalars(es[1..]);
        assert ScalarSection(es) == ScalarSection(es[1..]);
      }
    }
  }

  /** Summary lines appear exactly when some histogram was registered with a
      non-empty quantile list. */
  lemma {:induction false} SummarySectionEmpty(es: seq<Entry>)
    requires WellFormed(es)
    ensures SummarySection(es) == [] <==>
      forall i :: 0 <= i < |es| && es[i].HistogramEntry? ==> es[i].spec.quantiles == []
    decreases |es|
  {
    if es != [] {
      SummarySectionEmpty(es[1..]);
      assert forall i :: 1 <= i < |es| ==> es[i] == es[1..][i - 1];
    }
  }

  /** What a histogram block says about the observations it summarizes: the
      header, `_count` = number of observations, `_sum` = their sum, one
      cumulative bucket per boundary ascending, and `+Inf` = the count. */
  lemma HistogramBlockMeaning(name: string, spec: HistogramSpec, h: seq<nat>, acc: HistogramAcc)
    requires ValidGeometry(spec) && Summarizes(spec, h, acc)
    ensures var b, n := HistogramBlock(name, spec, acc), Sanitize(name);
      && |b| == spec.bucketCount + 4
      && b[0] == TypeLine(n, "histogram")
      && b[1] == SampleLine(n + "_count", None, NatToString(|h|))
      && b[2] == SampleLine(n + "_sum", None, NatToString(Sum(h)))
      && (forall i :: 0 <= i < spec.bucketCount ==>
            b[3 + i] == SampleLine(n + "_bucket", Some(Label("le", IntToString(Boundary(spec, i)))),
                                   NatToString(CountAtMost(h, Boundary(spec, i)))))
      && b[|b| - 1] == SampleLine(n + "_bucket", Some(Label("le", "+Inf")), NatToString(|h|))
  {
  }

  /** What a summary block says: the header, `_summary_count` and
      `_summary_sum` as in the histogram, and for each configured percentile q,
      in configured order, the observation at rank ceil(q*N/100). */
  lemma SummaryBlockMeaning(name: string, spec: HistogramSpec, h: seq<nat>, acc: HistogramAcc)
    requires ValidSpec(spec) && Summarizes(spec, h, acc) && spec.quantiles != [] && h != []
    ensures |acc.samples| == |h|
    ensures var b, n, qs := SummaryBlock(name, spec, acc), Sanitize(name) + "_summary", spec.quantiles;
      && |b| == |qs| + 3
      && b[0] == TypeLine(n, "summary")
      && b[1] == SampleLine(n + "_count", None, NatToString(|h|))
      && b[2] == SampleLine(n + "_sum", None, NatToString(Sum(h)))
      && (forall i :: 0 <= i < |qs| ==>
            var v := acc.samples[Rank(qs[i], |h|) - 1];
            b[3 + i] == SampleLine(n, Some(Label("quantile", QuantileLabel(qs[i]))), NatToString(v))
            && IsRankValue(h, Rank(qs[i], |h|), v))
  {
    assert |acc.samples| == |multiset(acc.samples)| == |multiset(h)| == |h|;
    forall i | 0 <= i < |spec.quantiles|
      ensures IsRankValue(h, Rank(spec.quantiles[i], |h|), acc.samples[Rank(spec.quantiles[i], |h|) - 1])
    {
      QuantileIsRankValue(spec, h, acc, spec.quantiles[i]);
    }
  }

  // ---------------------------------------------------------------------------
  // Text of the blocks

  /** A sample line without an extra label. */
  lemma PlainSampleText(labels: seq<Label>, n: string, v: string)
    requires labels != []
    ensures LineText(labels, SampleLine(n, None, v)) == n + "{" + FormatLabels(labels) + "} " + v
  {
    SampleLineCarriesLabels(labels, n, None, v);
  }

  /** A sample line with the extra label `key="value"` after the label set. */
  lemma LabelledSampleText(labels: seq<Label>, n: string, key: string, value: string, v: string)
    requires labels != []
    ensures LineText(labels, SampleLine(n, Some(Label(key, value)), v))
            == n + "{" + FormatLabels(labels) + "," + key + "=\"" + value + "\"} " + v
  {
    SampleLineCarriesLabels(labels, n, Some(Label(key, value)), v);
    LabelledRegroup(n, FormatLabels(labels), key, value, v);
  }

  /** The extra pair's text, regrouped. */
  lemma LabelledRegroup(n: string, f: string, key: string, value: string, v: string)
    ensures n + "{" + f + ("," + (key + "=\"" + value + "\"")) + "} " + v
            == n + "{" + f + "," + key + "=\"" + value + "\"} " + v
  {
    assert "\"" + "} " == "\"} ";
  }

  /** The two lines of a scalar as text. */
  lemma ScalarBlockText(labels: seq<Label>, name: string, kind: StatType, value: nat)
    requires labels != []
    ensures var n := Sanitize(name);
      Texts(labels, ScalarBlock(name, kind, value))
      == ["# TYPE " + n + " " + PrometheusType(kind), n + "{" + FormatLabels(labels) + "} " + NatToString(value)]
  {
    PlainSampleText(labels, Sanitize(name), NatToString(value));
  }

  /** The lines of a histogram as text. */
  lemma HistogramBlockText(labels: seq<Label>, name: string, spec: HistogramSpec, acc: HistogramAcc)
    requires labels != [] && ValidGeometry(spec) && |acc.buckets| == spec.bucketCount
    ensures var n, f := Sanitize(name), FormatLabels(labels);
      Texts(labels, HistogramBlock(name, spec, acc))
      == [ "# TYPE " + n + " " + "histogram",
           n + "_count{" + f + "} " + NatToString(acc.count),
           n + "_sum{" + f + "} " + NatToString(acc.sum) ]
         + BucketTexts(labels, n, spec, acc)
         + [ n + "_bucket{" + f + ",le=\"+Inf\"} " + NatToString(acc.count) ]
  {
    var n := Sanitize(name);
    var header := [ TypeLine(n, "histogram"),
                    SampleLine(n + "_count", None, NatToString(acc.count)),
                    SampleLine(n + "_sum", None, NatToString(acc.sum)) ];
    var buckets := seq(spec.bucketCount, i requires 0 <= i < spec.bucketCount => BucketLine(n, spec, acc, i));
    var inf := [ SampleLine(n + "_bucket", Some(Label("le", "+Inf")), NatToString(acc.count)) ];
    assert HistogramBlock(name, spec, acc) == header + buckets + inf;
    TextsConcat(labels, header + buckets, inf);
    TextsConcat(labels, header, buckets);
    HeaderText(labels, n, "histogram", acc);
    InfText(labels, n, acc.count);
    BucketLinesText(labels, n, spec, acc);
  }

  /** The bucket lines of a histogram as text, ascending by boundary. */
  function BucketTexts(labels: seq<Label>, n: string, spec: HistogramSpec, acc: HistogramAcc): (ts: seq<string>)
    requires ValidGeometry(spec) && |acc.buckets| == spec.bucketCount
    ensures |ts| == spec.bucketCount
  {
    seq(spec.bucketCount, i requires 0 <= i < spec.bucketCount =>
          n + "_bucket{" + FormatLabels(labels) + ",le=\"" + IntToString(Boundary(spec, i)) + "\"} "
            + NatToString(acc.buckets[i]))
  }

  lemma BucketLinesText(labels: seq<Label>, n: string, spec: HistogramSpec, acc: HistogramAcc)
    requires labels != [] && ValidGeometry(spec) && |acc.buckets| == spec.bucketCount
    ensures Texts(labels, seq(spec.bucketCount, i requires 0 <= i < spec.bucketCount => BucketLine(n, spec, acc, i)))
            == BucketTexts(labels, n, spec, acc)
  {
    forall i | 0 <= i < spec.bucketCount
      ensures LineText(labels, BucketLine(n, spec, acc, i)) == BucketTexts(labels, n, spec, acc)[i]
    {
      LabelledSampleText(labels, n + "_bucket", "le", IntToString(Boundary(spec, i)), NatToString(acc.buckets[i]));
    }
  }

  /** The lines of a summary as text. */
  lemma SummaryBlockText(labels: seq<Label>, name: string, spec: HistogramSpec, acc: HistogramAcc)
    requires labels != [] && ValidQuantiles(spec.quantiles) && spec.quantiles != []
    ensures var n, f := Sanitize(name) + "_summary", FormatLabels(labels);
      Texts(labels, SummaryBlock(name, spec, acc))
      == [ "# TYPE " + n + " " + "summary",
           n + "_count{" + f + "} " + NatToString(acc.count),
           n + "_sum{" + f + "} " + NatToString(acc.sum) ]
         + QuantileTexts(labels, n, spec, acc)
  {
    var n := Sanitize(name) + "_summary";
    var header := [ TypeLine(n, "summary"),
                    SampleLine(n + "_count", None, NatToString(acc.count)),
                    SampleLine(n + "_sum", None, NatToString(acc.sum)) ];
    var qs := spec.quantiles;
    var quantiles := seq(|qs|, i requires 0 <= i < |qs| => QuantileLine(n, acc, qs[i]));
    assert SummaryBlock(name, spec, acc) == header + quantiles;
    TextsConcat(labels, header, quantiles);
    HeaderText(labels, n, "summary", acc);
    QuantileLinesText(labels, n, spec, acc);
  }

  /** The quantile lines of a summary as text, in configured order. */
  function QuantileTexts(labels: seq<Label>, n: string, spec: HistogramSpec, acc: HistogramAcc): (ts: seq<string>)
    requires ValidQuantiles(spec.quantiles)
    ensures |ts| == |spec.quantiles|
  {
    var qs := spec.quantiles;
    seq(|qs|, i requires 0 <= i < |qs| =>
          n + "{" + FormatLabels(labels) + ",quantile=\"" + QuantileLabel(qs[i]) + "\"} "
            + ValueText(QuantileValue(acc.samples, qs[i])))
  }

  lemma QuantileLinesText(labels: seq<Label>, n: string, spec: HistogramSpec, acc: HistogramAcc)
    requires labels != [] && ValidQuantiles(spec.quantiles)
    ensures var qs := spec.quantiles;
      Texts(labels, seq(|qs|, i requires 0 <= i < |qs| => QuantileLine(n, acc, qs[i])))
      == QuantileTexts(labels, n, spec, acc)
  {
    var qs := spec.quantiles;
    forall i | 0 <= i < |qs|
      ensures LineText(labels, QuantileLine(n, acc, qs[i])) == QuantileTexts(labels, n, spec, acc)[i]
    {
      QuantileLineText(labels, n, acc, qs[i]);
    }
  }

  lemma QuantileLineText(labels: seq<Label>, n: string, acc: HistogramAcc, q: nat)
    requires labels != [] && q <= 100
    ensures LineText(labels, QuantileLine(n, acc, q))
            == n + "{" + FormatLabels(labels) + ",quantile=\"" + QuantileLabel(q) + "\"} "
               + ValueText(QuantileValue(acc.samples, q))
  {
    LabelledSampleText(labels, n, "quantile", QuantileLabel(q), ValueText(QuantileValue(acc.samples, q)));
  }

  /** The type header and the `_count` and `_sum` lines of a histogram or summary. */
  lemma HeaderText(labels: seq<Label>, n: string, kind: string, acc: HistogramAcc)
    requires labels != []
    ensures var f := FormatLabels(labels);
      Texts(labels, [ TypeLine(n, kind),
                      SampleLine(n + "_count", None, NatToString(acc.count)),
                      SampleLine(n + "_sum", None, NatToString(acc.sum)) ])
      == [ "# TYPE " + n + " " + kind,
           n + "_count{" + f + "} " + NatToString(acc.count),
           n + "_sum{" + f + "} " + NatToString(acc.sum) ]
  {
    PlainSampleText(labels, n + "_count", NatToString(acc.count));
    PlainSampleText(labels, n + "_sum", NatToString(acc.sum));
    assert n + "_count" + "{" == n + "_count{" && n + "_sum" + "{" == n + "_sum{";
  }

  /** The `+Inf` bucket line of a histogram. */
  lemma InfText(labels: seq<Label>, n: string, count: nat)
    requires labels != []
    ensures Texts(labels, [ SampleLine(n + "_bucket", Some(Label("le", "+Inf")), NatToString(count)) ])
            == [ n + "_bucket{" + FormatLabels(labels) + ",le=\"+Inf\"} " + NatToString(count) ]
  {
    var f := FormatLabels(labels);
    LabelledSampleText(labels, n + "_bucket", "le", "+Inf", NatToString(count));
    assert n + "_bucket" + "{" == n + "_bucket{";
    var y := n + "_bucket{" + f;
    assert y + "," + "le" + "=\"" + "+Inf" + "\"} " == y + ",le=\"+Inf\"} ";
  }

  // ---------------------------------------------------------------------------
  // Reading a page back

  /** Nothing in a line that the label set does not supply holds a newline. */
  predicate OneLine(line: Line) {
    match line
    case TypeLine(n, t) => NoNewline(n) && NoNewline(t)
    case SampleLine(n, extra, v) =>
      NoNewline(n) && NoNewline(v) && (extra.Some? ==> LabelsNoNewline([extra.value]))
  }

  predicate AllOneLine(lines: seq<Line>) {
    forall i :: 0 <= i < |lines| ==> OneLine(lines[i])
  }

  predicate NamesNoNewline(es: seq<Entry>) {
    forall i :: 0 <= i < |es| ==> NoNewline(es[i].name)
  }

  lemma LineTextNoNewline(labels: seq<Label>, line: Line)
    requires LabelsNoNewline(labels) && OneLine(line)
    ensures NoNewline(LineText(labels, line))
  {
    if line.SampleLine? {
      var pairs := labels + ExtraLabels(line.extra);
      assert LabelsNoNewline(pairs);
      FormatLabelsNoNewline(pairs);
    }
  }

  lemma ScalarBlockOneLine(name: string, kind: StatType, value: nat)
    requires NoNewline(name)
    ensures AllOneLine(ScalarBlock(name, kind, value))
  {
    SanitizeNoNewline(name);
    DigitsNoNewline(NatToString(value));
  }

  lemma HistogramBlockOneLine(name: string, spec: HistogramSpec, acc: HistogramAcc)
    requires NoNewline(name) && ValidGeometry(spec) && |acc.buckets| == spec.bucketCount
    ensures AllOneLine(HistogramBlock(name, spec, acc))
  {
    var b, n := HistogramBlock(name, spec, acc), Sanitize(name);
    SanitizeNoNewline(name);
    DigitsNoNewline(NatToString(acc.count));
    DigitsNoNewline(NatToString(acc.sum));
    assert NoNewline("+Inf") by {
      forall i | 0 <= i < 4 ensures "+Inf"[i] != '\n' {}
    }
    forall i | 0 <= i < |b| ensures OneLine(b[i]) {
      if 3 <= i < |b| - 1 {
        IntToStringNoNewline(Boundary(spec, i - 3));
        DigitsNoNewline(NatToString(acc.buckets[i - 3]));
      }
    }
  }

  lemma QuantileLineOneLine(n: string, acc: HistogramAcc, q: nat)
    requires NoNewline(n) && q <= 100
    ensures OneLine(QuantileLine(n, acc, q))
  {
    QuantileLabelNoNewline(q);
    var v := QuantileValue(acc.samples, q);
    if v.Some? {
      DigitsNoNewline(NatToString(v.value));
    } else {
      forall k | 0 <= k < 3 ensures "NaN"[k] != '\n' {}
    }
  }

  lemma SummaryBlockOneLine(name: string, spec: HistogramSpec, acc: HistogramAcc)
    requires NoNewline(name) && ValidQuantiles(spec.quantiles)
    ensures AllOneLine(SummaryBlock(name, spec, acc))
  {
    if spec.quantiles != [] {
      var b, n := SummaryBlock(name, spec, acc), Sanitize(name) + "_summary";
      SanitizeNoNewline(name);
      DigitsNoNewline(NatToString(acc.count));
      DigitsNoNewline(NatToString(acc.sum));
      forall i | 3 <= i < |b| ensures OneLine(b[i]) {
        QuantileLineOneLine(n, acc, spec.quantiles[i - 3]);
      }
    }
  }

  lemma {:induction false} SectionsOneLine(es: seq<Entry>)
    requires WellFormed(es) && NamesNoNewline(es)
    ensures AllOneLine(ScalarSection(es))
    ensures AllOneLine(HistogramSection(es))
    ensures AllOneLine(SummarySection(es))
    decreases |es|
  {
    if es != [] {
      var e := es[0];
      assert WellFormedEntry(e) && NoNewline(e.name);
      SectionsOneLine(es[1..]);
      if e.ScalarEntry? {
        ScalarBlockOneLine(e.name, e.kind, e.value);
      } else {
        HistogramBlockOneLine(e.name, e.spec, e.acc);
        SummaryBlockOneLine(e.name, e.spec, e.acc);
      }
    }
  }

  /** Cutting a page at its newlines, as the test does, gives back exactly the
      text of every serialized line, in order, provided no metric name and no
      label holds a newline. */
  lemma PageReadsBack(labels: seq<Label>, es: seq<Entry>)
    requires WellFormed(es) && NamesNoNewline(es) && LabelsNoNewline(labels)
    ensures CompleteLines(Page(labels, es)) == Texts(labels, Serialize(es))
  {
    var lines := Serialize(es);
    SectionsOneLine(es);
    assert AllOneLine(lines);
    var ts := Texts(labels, lines);
    forall line | line in ts ensures NoNewline(line) {
      var i :| 0 <= i < |ts| && ts[i] == line;
      LineTextNoNewline(labels, lines[i]);
    }
    CompleteLinesOfRender(ts, "");
    assert Render(ts) + "" == Render(ts);
  }
}
