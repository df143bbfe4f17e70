/** Per-metric state of the reporter and the rule each observation applies to it:
    the four scalar kinds, and the histogram with its count, sum, cumulative
    buckets and (when quantiles were asked for) its sorted samples. */
module Accumulators {
  import opened Wrappers

  // ---------------------------------------------------------------------------
  // Scalars

  /** The export kinds of scalar metrics. */
  datatype StatType = COUNT | AVG | SUM | RATE

  /** The Prometheus metric type a scalar kind is exported as. */
  function PrometheusType(kind: StatType): (t: string)
    ensures t == "counter" <==> kind == COUNT
    ensures t == "counter" || t == "gauge"
  {
    if kind == COUNT then "counter" else "gauge"
  }

  function Sum(s: seq<nat>): nat {
    if s == [] then 0 else s[0] + Sum(s[1..])
  }

  /** No amount exceeds the total. */
  lemma {:induction false} SumAtLeastEach(s: seq<nat>)
    ensures forall i :: 0 <= i < |s| ==> s[i] <= Sum(s)
    decreases |s|
  {
    if s != [] {
      SumAtLeastEach(s[1..]);
      forall i | 1 <= i < |s| ensures s[i] <= Sum(s) {
        assert s[i] == s[1..][i - 1];
      }
    }
  }

  lemma {:induction false} SumSnoc(s: seq<nat>, x: nat)
    ensures Sum(s + [x]) == Sum(s) + x
    decreases |s|
  {
    if s != [] {
      assert (s + [x])[1..] == s[1..] + [x];
      SumSnoc(s[1..], x);
    }
  }

  lemma {:induction false} SumConcat(a: seq<nat>, b: seq<nat>)
    ensures Sum(a + b) == Sum(a) + Sum(b)
    decreases |a|
  {
    if a != [] {
      assert (a + b)[0] == a[0] && (a + b)[1..] == a[1..] + b;
      SumConcat(a[1..], b);
    } else {
      assert a + b == b;
    }
  }

  /** What a scalar metric reports after receiving `amounts`, in order: the
      running total for COUNT, the last amount for AVG, and 0 for SUM and RATE,
      which are placeholders aggregated elsewhere. */
  function ScalarValue(kind: StatType, amounts: seq<nat>): (v: nat)
    ensures amounts == [] ==> v == 0
    ensures kind == COUNT ==> forall i :: 0 <= i < |amounts| ==> amounts[i] <= v
  {
    match kind
    case COUNT => SumAtLeastEach(amounts); Sum(amounts)
    case AVG => if amounts == [] then 0 else amounts[|amounts| - 1]
    case SUM => 0
    case RATE => 0
  }

  /** The update one `addMetricValue` call applies to a scalar's value. */
  function ApplyScalar(kind: StatType, current: nat, amount: nat): (r: nat)
    ensures r < current ==> kind == AVG
  {
    match kind
    case COUNT => current + amount
    case AVG => amount
    case SUM => current
    case RATE => current
  }

  /** Applying the update rule to the reported value of a history gives the
      reported value of the history extended by that amount. */
  lemma ApplyScalarExtends(kind: StatType, amounts: seq<nat>, amount: nat)
    ensures ApplyScalar(kind, ScalarValue(kind, amounts), amount) == ScalarValue(kind, amounts + [amount])
  {
    if kind == COUNT {
      SumSnoc(amounts, amount);
    }
  }

  /** The value reached by applying the update rule to each amount in turn,
      starting from `current`. */
  function ApplyAll(kind: StatType, current: nat, amounts: seq<nat>): nat
    decreases |amounts|
  {
    if amounts == [] then current else ApplyAll(kind, ApplyScalar(kind, current, amounts[0]), amounts[1..])
  }

  /** Updating in place from the value of a history, one amount at a time,
      ends at the value of the whole history. */
  lemma {:induction false} ApplyAllExtends(kind: StatType, prefix: seq<nat>, rest: seq<nat>)
    ensures ApplyAll(kind, ScalarValue(kind, prefix), rest) == ScalarValue(kind, prefix + rest)
    decreases |rest|
  {
    if rest == [] {
      assert prefix + rest == prefix;
    } else {
      ApplyScalarExtends(kind, prefix, rest[0]);
      ApplyAllExtends(kind, prefix + [rest[0]], rest[1..]);
      assert prefix + [rest[0]] + rest[1..] == prefix + rest;
    }
  }

  /** A scalar registered at 0 and updated by each `addMetricValue` call in
      turn holds the value its history of amounts determines. */
  lemma ScalarValueByUpdates(kind: StatType, amounts: seq<nat>)
    ensures ApplyAll(kind, 0, amounts) == ScalarValue(kind, amounts)
  {
    ApplyAllExtends(kind, [], amounts);
    assert [] + amounts == amounts;
  }

  // ---------------------------------------------------------------------------
  // Histogram geometry

  /** How a histogram was registered: `bucketCount` equal-width buckets over
      [min, max] and the percentiles its summary reports. */
  datatype HistogramSpec = HistogramSpec(bucketCount: nat, min: int, max: int, quantiles: seq<nat>)

  /** Registration accepts at least one bucket over a non-empty range. */
  predicate AcceptedGeometry(spec: HistogramSpec) {
    spec.bucketCount > 0 && spec.min < spec.max
  }

  /** The buckets of an accepted geometry have an integral width. */
  predicate ValidGeometry(spec: HistogramSpec) {
    AcceptedGeometry(spec) && (spec.max - spec.min) % spec.bucketCount == 0
  }

  predicate ValidQuantiles(quantiles: seq<nat>) {
    forall i :: 0 <= i < |quantiles| ==> quantiles[i] <= 100
  }

  predicate ValidSpec(spec: HistogramSpec) {
    ValidGeometry(spec) && ValidQuantiles(spec.quantiles)
  }

  function Width(spec: HistogramSpec): (w: int)
    requires ValidGeometry(spec)
    ensures w > 0 && w * spec.bucketCount == spec.max - spec.min
  {
    var w := (spec.max - spec.min) / spec.bucketCount;
    assert w * spec.bucketCount == spec.max - spec.min;
    PositiveFactor(w, spec.bucketCount);
    w
  }

  lemma PositiveFactor(w: int, n: nat)
    requires w * n > 0
    ensures w > 0
  {
  }

  /** The upper bound of bucket i (0-based): min + (i+1)*(max-min)/bucketCount. */
  function Boundary(spec: HistogramSpec, i: nat): int
    requires ValidGeometry(spec)
  {
    spec.min + (i + 1) * Width(spec)
  }

  lemma BoundaryIncreasing(spec: HistogramSpec, i: nat, j: nat)
    requires ValidGeometry(spec) && i < j
    ensures Boundary(spec, i) < Boundary(spec, j)
  {
    var w := Width(spec);
    assert (j + 1) * w == (i + 1) * w + (j - i) * w;
    assert (j - i) * w > 0 by { PositiveTimes(j - i, w); }
  }

  lemma PositiveTimes(a: int, b: int)
    requires a > 0 && b > 0
    ensures a * b > 0
  {
  }

  /** The finite bucket boundaries, ascending, ending at max. */
  function Boundaries(spec: HistogramSpec): (bs: seq<int>)
    requires ValidGeometry(spec)
    ensures |bs| == spec.bucketCount
    ensures forall i :: 0 <= i < |bs| ==> bs[i] == Boundary(spec, i)
    ensures forall i, j :: 0 <= i < j < |bs| ==> bs[i] < bs[j]
    ensures spec.min < bs[0] && bs[|bs| - 1] == spec.max
  {
    forall i: nat, j: nat | i < j < spec.bucketCount
      ensures Boundary(spec, i) < Boundary(spec, j)
    {
      BoundaryIncreasing(spec, i, j);
    }
    seq(spec.bucketCount, i requires 0 <= i < spec.bucketCount => Boundary(spec, i))
  }

  // ---------------------------------------------------------------------------
  // Counting observations

  /** How many of `h` are at most `b`. */
  function CountAtMost(h: seq<nat>, b: int): nat {
    if h == [] then 0
    else CountAtMost(h[..|h| - 1], b) + (if h[|h| - 1] <= b then 1 else 0)
  }

  lemma {:induction false} CountAtMostBounded(h: seq<nat>, b: int)
    ensures CountAtMost(h, b) <= |h|
    decreases |h|
  {
    if h != [] {
      CountAtMostBounded(h[..|h| - 1], b);
    }
  }

  lemma {:induction false} CountAtMostMonotone(h: seq<nat>, b: int, b': int)
    requires b <= b'
    ensures CountAtMost(h, b) <= CountAtMost(h, b')
    decreases |h|
  {
    if h != [] {
      CountAtMostMonotone(h[..|h| - 1], b, b');
    }
  }

  lemma {:induction false} CountAtMostConcat(a: seq<nat>, c: seq<nat>, b: int)
    ensures CountAtMost(a + c, b) == CountAtMost(a, b) + CountAtMost(c, b)
    decreases |c|
  {
    if c != [] {
      assert (a + c)[..|a + c| - 1] == a + c[..|c| - 1];
      assert (a + c)[|a + c| - 1] == c[|c| - 1];
      CountAtMostConcat(a, c[..|c| - 1], b);
    } else {
      assert a + c == a;
    }
  }

  /** Taking the element at k out of a sequence. */
  lemma CountAtMostRemove(c: seq<nat>, k: nat, b: int)
    requires k < |c|
    ensures multiset(c[..k] + c[k + 1..]) == multiset(c) - multiset{c[k]}
    ensures CountAtMost(c, b) == CountAtMost(c[..k] + c[k + 1..], b) + (if c[k] <= b then 1 else 0)
  {
    var v := c[k];
    assert c == c[..k] + [v] + c[k + 1..];
    assert multiset(c) == multiset(c[..k]) + multiset{v} + multiset(c[k + 1..]);
    CountAtMostConcat(c[..k] + [v], c[k + 1..], b);
    CountAtMostConcat(c[..k], [v], b);
    CountAtMostConcat(c[..k], c[k + 1..], b);
    assert CountAtMost([v], b) == (if v <= b then 1 else 0) by {
      assert [v][..0] == [];
    }
  }

  /** Counting does not depend on the order of the observations. */
  lemma {:induction false} CountAtMostPermutation(a: seq<nat>, c: seq<nat>, b: int)
    requires multiset(a) == multiset(c)
    ensures CountAtMost(a, b) == CountAtMost(c, b)
    decreases |a|
  {
    if a == [] {
      assert |c| == |multiset(c)| == 0;
    } else {
      var a': seq<nat>, v: nat := a[..|a| - 1], a[|a| - 1];
      assert a == a' + [v];
      assert multiset(a') == multiset(a) - multiset{v};
      assert v in multiset(c);
      var k :| 0 <= k < |c| && c[k] == v;
      CountAtMostRemove(c, k, b);
      CountAtMostPermutation(a', c[..k] + c[k + 1..], b);
    }
  }

  // ---------------------------------------------------------------------------
  // Sorted samples and ranks

  predicate Sorted(s: seq<nat>) {
    forall i, j :: 0 <= i < j < |s| ==> s[i] <= s[j]
  }

  /** Adds one sample to a sorted sequence, keeping it sorted. */
  function InsertSorted(s: seq<nat>, v: nat): (r: seq<nat>)
    requires Sorted(s)
    ensures Sorted(r)
    ensures multiset(r) == multiset(s) + multiset{v}
  {
    if s == [] || v <= s[0] then [v] + s
    else
      var tail := InsertSorted(s[1..], v);
      InsertedAtLeastHead(s, v, tail);
      assert s == [s[0]] + s[1..];
      [s[0]] + tail
  }

  /** Inserting v > s[0] into the rest of s keeps every element at least s[0]. */
  lemma InsertedAtLeastHead(s: seq<nat>, v: nat, t: seq<nat>)
    requires Sorted(s) && s != [] && s[0] < v && multiset(t) == multiset(s[1..]) + multiset{v}
    ensures forall j :: 0 <= j < |t| ==> s[0] <= t[j]
  {
    forall j | 0 <= j < |t| ensures s[0] <= t[j] {
      assert t[j] in multiset(t);
      if t[j] != v {
        assert t[j] in multiset(s[1..]);
        var k :| 0 <= k < |s[1..]| && s[1..][k] == t[j];
        assert s[k + 1] == t[j];
      }
    }
  }

  /** The 1-based rank of percentile q among n > 0 sorted observations:
      the ceiling of q*n/100, and never below the first. */
  function Rank(q: nat, n: nat): (r: nat)
    requires q <= 100 && n > 0
    ensures 1 <= r <= n
  {
    var m := q * n;
    assert m <= 100 * n by { AtMostHundredTimes(q, n); }
    if m == 0 then 1 else (m + 99) / 100
  }

  /** Percentile 0 names the first observation and percentile 100 the last. */
  lemma RankOfExtremes(n: nat)
    requires n > 0
    ensures Rank(0, n) == 1 && Rank(100, n) == n
  {
    assert (100 * n + 99) / 100 == n;
  }

  /** The rank is the ceiling of q*n/100: the least r with q*n <= 100*r,
      except that percentile 0 still names the first observation. */
  lemma RankIsCeiling(q: nat, n: nat)
    requires q <= 100 && n > 0
    ensures q * n <= 100 * Rank(q, n)
    ensures q * n > 0 ==> 100 * (Rank(q, n) - 1) < q * n
    ensures q * n == 0 ==> Rank(q, n) == 1
  {
  }

  lemma AtMostHundredTimes(q: nat, n: nat)
    requires q <= 100
    ensures q * n <= 100 * n
  {
  }

  /** v is the observation at rank r of `h` sorted ascending: fewer than r
      observations lie below v and at least r lie at or below it. */
  predicate IsRankValue(h: seq<nat>, r: nat, v: nat) {
    CountAtMost(h, v - 1) < r <= CountAtMost(h, v)
  }

  /** Each rank has one value. */
  lemma RankValueUnique(h: seq<nat>, r: nat, v: nat, w: nat)
    requires IsRankValue(h, r, v) && IsRankValue(h, r, w)
    ensures v == w
  {
    if v < w {
      CountAtMostMonotone(h, v, w - 1);
    } else if w < v {
      CountAtMostMonotone(h, w, v - 1);
    }
  }

  lemma {:induction false} CountAtMostSortedPrefix(s: seq<nat>, b: int, m: nat)
    requires m <= |s| && forall i :: 0 <= i < m ==> s[i] <= b
    ensures m <= CountAtMost(s, b)
    decreases |s|
  {
    if |s| > m {
      CountAtMostSortedPrefix(s[..|s| - 1], b, m);
    } else if m > 0 {
      CountAtMostSortedPrefix(s[..|s| - 1], b, m - 1);
    }
  }

  lemma {:induction false} CountAtMostSortedSuffix(s: seq<nat>, b: int, m: nat)
    requires m <= |s| && forall i :: m <= i < |s| ==> b < s[i]
    ensures CountAtMost(s, b) <= m
    decreases |s|
  {
    if |s| > m {
      CountAtMostSortedSuffix(s[..|s| - 1], b, m);
    } else {
      CountAtMostBounded(s, b);
    }
  }

  /** In a sorted sequence, the element at position r-1 is the rank-r value. */
  lemma SortedRankValue(s: seq<nat>, r: nat)
    requires Sorted(s) && 1 <= r <= |s|
    ensures IsRankValue(s, r, s[r - 1])
  {
    var v := s[r - 1];
    CountAtMostSortedPrefix(s, v, r);
    CountAtMostSortedSuffix(s, v as int - 1, r - 1);
  }

  /** The reported quantile of percentile q: the sample at rank
      ceil(q*N/100) of the N sorted samples, or no value without samples. */
  function QuantileValue(samples: seq<nat>, q: nat): (r: Option<nat>)
    requires q <= 100
    ensures r.None? <==> samples == []
    ensures r.Some? ==> r.value in samples
    ensures samples != [] && q == 0 ==> r.value == samples[0]
    ensures samples != [] && q == 100 ==> r.value == samples[|samples| - 1]
  {
    if samples == [] then None
    else
      RankOfExtremes(|samples|);
      Some(samples[Rank(q, |samples|) - 1])
  }

  // ---------------------------------------------------------------------------
  // Histogram accumulators

  /** Running count and sum, one cumulative count per finite bucket, and the
      samples in ascending order (kept only when quantiles were asked for). */
  datatype HistogramAcc = HistogramAcc(count: nat, sum: nat, buckets: seq<nat>, samples: seq<nat>)

  /** `acc` is what the histogram holds after observing `h`, in order. */
  predicate Summarizes(spec: HistogramSpec, h: seq<nat>, acc: HistogramAcc)
    requires ValidGeometry(spec)
  {
    && acc.count == |h|
    && acc.sum == Sum(h)
    && |acc.buckets| == spec.bucketCount
    && (forall i :: 0 <= i < |acc.buckets| ==> acc.buckets[i] == CountAtMost(h, Boundary(spec, i)))
    && Sorted(acc.samples)
    && (if spec.quantiles == [] then acc.samples == [] else multiset(acc.samples) == multiset(h))
  }

  /** A freshly registered histogram. */
  function NewHistogram(spec: HistogramSpec): (acc: HistogramAcc)
    requires ValidGeometry(spec)
    ensures Summarizes(spec, [], acc)
  {
    HistogramAcc(0, 0, seq(spec.bucketCount, i => 0), [])
  }

  /** One `addHistogramMetricValue` call: count and sum grow, every bucket
      whose bound is at least v counts it, and the sample joins the others. */
  function Observe(spec: HistogramSpec, acc: HistogramAcc, v: nat): (r: HistogramAcc)
    requires ValidGeometry(spec) && |acc.buckets| == spec.bucketCount && Sorted(acc.samples)
    ensures r.count == acc.count + 1 && |r.buckets| == spec.bucketCount && Sorted(r.samples)
  {
    HistogramAcc(
      acc.count + 1,
      acc.sum + v,
      seq(|acc.buckets|, i requires 0 <= i < |acc.buckets| =>
        acc.buckets[i] + (if v <= Boundary(spec, i) then 1 else 0)),
      if spec.quantiles == [] then acc.samples else InsertSorted(acc.samples, v))
  }

  /** Observing v keeps the accumulator a summary of the history extended by v. */
  lemma ObserveSummarizes(spec: HistogramSpec, h: seq<nat>, acc: HistogramAcc, v: nat)
    requires ValidGeometry(spec) && Summarizes(spec, h, acc)
    ensures Summarizes(spec, h + [v], Observe(spec, acc, v))
  {
    SumSnoc(h, v);
    var h' := h + [v];
    assert h'[..|h'| - 1] == h;
  }

  /** The accumulator of a histogram that has observed `h`, in order, since it
      was registered. */
  function Replay(spec: HistogramSpec, h: seq<nat>): (acc: HistogramAcc)
    requires ValidGeometry(spec)
    ensures |acc.buckets| == spec.bucketCount && Sorted(acc.samples)
    decreases |h|
  {
    if h == [] then NewHistogram(spec)
    else Observe(spec, Replay(spec, h[..|h| - 1]), h[|h| - 1])
  }

  /** One more observation is one more step of the replay. */
  lemma ReplaySnoc(spec: HistogramSpec, h: seq<nat>, v: nat)
    requires ValidGeometry(spec)
    ensures Replay(spec, h + [v]) == Observe(spec, Replay(spec, h), v)
  {
    assert (h + [v])[..|h|] == h;
  }

  /** Whatever was observed, the accumulator holds its count, sum, cumulative
      bucket counts and (when quantiles were asked for) its sorted samples. */
  lemma {:induction false} ReplaySummarizes(spec: HistogramSpec, h: seq<nat>)
    requires ValidGeometry(spec)
    ensures Summarizes(spec, h, Replay(spec, h))
    decreases |h|
  {
    if h != [] {
      var h', v := h[..|h| - 1], h[|h| - 1];
      ReplaySummarizes(spec, h');
      ObserveSummarizes(spec, h', Replay(spec, h'), v);
      assert h' + [v] == h;
    }
  }

  /** The emitted bucket counts never decrease along the ascending boundaries,
      and none exceeds the total count that the +Inf bucket reports. */
  lemma BucketsCumulative(spec: HistogramSpec, h: seq<nat>, acc: HistogramAcc)
    requires ValidGeometry(spec) && Summarizes(spec, h, acc)
    ensures forall i, j :: 0 <= i <= j < |acc.buckets| ==> acc.buckets[i] <= acc.buckets[j]
    ensures forall i :: 0 <= i < |acc.buckets| ==> acc.buckets[i] <= acc.count
  {
    forall i, j | 0 <= i <= j < |acc.buckets| ensures acc.buckets[i] <= acc.buckets[j] {
      if i < j {
        BoundaryIncreasing(spec, i, j);
        CountAtMostMonotone(h, Boundary(spec, i), Boundary(spec, j));
      }
    }
    forall i | 0 <= i < |acc.buckets| ensures acc.buckets[i] <= acc.count {
      CountAtMostBounded(h, Boundary(spec, i));
    }
  }

  /** The last finite bucket (bound max) holds every observation in range. */
  lemma LastBucketIsAtMostMax(spec: HistogramSpec, h: seq<nat>, acc: HistogramAcc)
    requires ValidGeometry(spec) && Summarizes(spec, h, acc)
    ensures acc.buckets[spec.bucketCount - 1] == CountAtMost(h, spec.max)
  {
    var bs := Boundaries(spec);
    assert bs[spec.bucketCount - 1] == Boundary(spec, spec.bucketCount - 1);
  }

  /** A histogram with quantiles reports, for each observed population, the
      true value at rank ceil(q*N/100) of its sorted observations. */
  lemma QuantileIsRankValue(spec: HistogramSpec, h: seq<nat>, acc: HistogramAcc, q: nat)
    requires ValidGeometry(spec) && Summarizes(spec, h, acc)
    requires spec.quantiles != [] && h != [] && q <= 100
    ensures QuantileValue(acc.samples, q).Some?
    ensures IsRankValue(h, Rank(q, |h|), QuantileValue(acc.samples, q).value)
  {
    assert |acc.samples| == |multiset(acc.samples)| == |multiset(h)| == |h|;
    var r := Rank(q, |h|);
    var v := acc.samples[r - 1];
    SortedRankValue(acc.samples, r);
    CountAtMostPermutation(acc.samples, h, v);
    CountAtMostPermutation(acc.samples, h, v as int - 1);
  }
}
