/** `PrometheusReporter`: the registry of exported metrics, the entry points
    that register and observe them, and the snapshot that
    `getSerializedMetrics` renders. Calls are modelled as one sequential
    stream. */
module Reporter {
  import opened Exposition
  import opened Accumulators
  import opened Serializer

  /** Outcome of a registration call; every outcome but `Registered` leaves the
      registry as it was. */
  datatype Registration = Registered | AlreadyRegistered | KindConflict | InvalidGeometry

  /** The reporter's registry as one value: registration order, scalar kinds,
      histogram specs, scalar values, histogram accumulators, and the
      observations each metric has accepted. */
  datatype Registry = Registry(order: seq<string>, kinds: map<string, StatType>, specs: map<string, HistogramSpec>,
                               values: map<string, nat>, accs: map<string, HistogramAcc>,
                               observed: map<string, seq<nat>>)

  /** Marks a name a proof is about, and `Ranked` a position of `order`: the
      invariant's facts are instantiated only at marked names and positions,
      so that a proof about a long run of calls is not flooded with them. */
  ghost predicate Tracked(n: string) { true }

  ghost predicate Ranked(i: int) { true }

  /** What the registry keeps about one name: it is a scalar, a histogram or
      unknown; a registered name has a place in the order and a history of
      observations, and its current state is what that history determines. */
  ghost predicate NameAgrees(r: Registry, n: string) {
    && (n in r.kinds ==> n !in r.specs)
    && (n in r.values <==> n in r.kinds)
    && (n in r.accs <==> n in r.specs)
    && (n in r.observed <==> n in r.kinds || n in r.specs)
    && (n in r.kinds || n in r.specs ==> n in r.order)
    && (n in r.kinds ==> r.values[n] == ScalarValue(r.kinds[n], r.observed[n]))
    && (n in r.specs ==> ValidSpec(r.specs[n]) && r.accs[n] == Replay(r.specs[n], r.observed[n]))
  }

  /** Every registered name appears once in the order, every name in the
      order is registered, and every name agrees with its history. */
  ghost predicate Consistent(r: Registry) {
    && (forall i, j {:trigger Ranked(i), Ranked(j)} ::
          Ranked(i) && Ranked(j) && 0 <= i < j < |r.order| ==> r.order[i] != r.order[j])
    && (forall i {:trigger Ranked(i)} :: Ranked(i) && 0 <= i < |r.order| ==> r.order[i] in r.kinds || r.order[i] in r.specs)
    && (forall n {:trigger Tracked(n)} :: Tracked(n) ==> NameAgrees(r, n))
  }

  /** The invariant at one name. */
  lemma Agrees(r: Registry, n: string)
    requires Consistent(r)
    ensures NameAgrees(r, n)
  {
    assert Tracked(n);
  }

  /** The invariant at one position of the order. */
  lemma Placed(r: Registry, i: nat)
    requires Consistent(r) && i < |r.order|
    ensures r.order[i] in r.kinds || r.order[i] in r.specs
    ensures forall j :: 0 <= j < |r.order| && j != i ==> r.order[j] != r.order[i]
  {
    assert Ranked(i);
    forall j | 0 <= j < |r.order| && j != i
      ensures r.order[j] != r.order[i]
    {
      assert Ranked(j);
    }
  }

  /** Registering a new scalar keeps the registry consistent. */
  lemma ConsistentRegisterScalar(r: Registry, r': Registry, name: string, kind: StatType)
    requires Consistent(r) && name !in r.kinds && name !in r.specs
    requires r' == r.(order := r.order + [name], kinds := r.kinds[name := kind], values := r.values[name := 0],
                      observed := r.observed[name := []])
    ensures Consistent(r')
  {
    forall i, j | Ranked(i) && Ranked(j) && 0 <= i < j < |r'.order|
      ensures r'.order[i] != r'.order[j]
    {
      if j == |r.order| {
        assert r.order[i] in r.kinds || r.order[i] in r.specs;
      }
    }
    forall i | Ranked(i) && 0 <= i < |r'.order|
      ensures r'.order[i] in r'.kinds || r'.order[i] in r'.specs
    {
    }
    forall n | Tracked(n)
      ensures NameAgrees(r', n)
    {
      Agrees(r, n);
    }
  }

  /** Adding an amount to a registered scalar keeps the registry consistent. */
  lemma ConsistentAddScalar(r: Registry, r': Registry, name: string, amount: nat)
    requires Consistent(r) && name in r.kinds && name in r.values && name in r.observed
    requires r' == r.(values := r.values[name := ApplyScalar(r.kinds[name], r.values[name], amount)],
                      observed := r.observed[name := r.observed[name] + [amount]])
    ensures Consistent(r')
  {
    Agrees(r, name);
    ApplyScalarExtends(r.kinds[name], r.observed[name], amount);
  }

  /** Registering a new histogram keeps the registry consistent. */
  lemma ConsistentRegisterHistogram(r: Registry, r': Registry, name: string, spec: HistogramSpec)
    requires Consistent(r) && name !in r.kinds && name !in r.specs && ValidSpec(spec)
    requires r' == r.(order := r.order + [name], specs := r.specs[name := spec],
                      accs := r.accs[name := NewHistogram(spec)], observed := r.observed[name := []])
    ensures Consistent(r')
  {
    forall i, j | Ranked(i) && Ranked(j) && 0 <= i < j < |r'.order|
      ensures r'.order[i] != r'.order[j]
    {
      if j == |r.order| {
        assert r.order[i] in r.kinds || r.order[i] in r.specs;
      }
    }
    forall i | Ranked(i) && 0 <= i < |r'.order|
      ensures r'.order[i] in r'.kinds || r'.order[i] in r'.specs
    {
    }
    forall n | Tracked(n)
      ensures NameAgrees(r', n)
    {
      Agrees(r, n);
    }
  }

  /** The accumulator of a histogram meets what an observation needs. */
  predicate Observable(spec: HistogramSpec, acc: HistogramAcc) {
    ValidGeometry(spec) && |acc.buckets| == spec.bucketCount && Sorted(acc.samples)
  }

  /** Observing a value of a registered histogram keeps the registry consistent. */
  lemma ConsistentObserve(r: Registry, r': Registry, name: string, v: nat)
    requires Consistent(r) && name in r.specs && name in r.accs && name in r.observed
    requires Observable(r.specs[name], r.accs[name])
    requires r' == r.(accs := r.accs[name := Observe(r.specs[name], r.accs[name], v)],
                      observed := r.observed[name := r.observed[name] + [v]])
    ensures Consistent(r')
  {
    Agrees(r, name);
    ReplaySnoc(r.specs[name], r.observed[name], v);
  }

  class PrometheusReporter {
    /** The label set attached to every sample line. */
    const labels: seq<Label>
    /** Export kind of every registered scalar (`registeredMetrics_`). */
    var registeredMetrics: map<string, StatType>
    /** Geometry and percentiles of every registered histogram. */
    var histogramSpecs: map<string, HistogramSpec>
    /** Every registered name, scalar or histogram, in registration order. */
    var order: seq<string>
    /** Current value of every scalar. */
    var values: map<string, nat>
    /** Current accumulator of every histogram. */
    var histograms: map<string, HistogramAcc>
    /** Every amount or value each registered metric has accepted, in order. */
    ghost var observed: map<string, seq<nat>>

    /** The registry this object holds. */
    ghost function State(): Registry
      reads this
    {
      Registry(order, registeredMetrics, histogramSpecs, values, histograms, observed)
    }

    ghost predicate Valid()
      reads this
    {
      Consistent(State())
    }

    constructor(labels: seq<Label>)
      ensures Valid() && this.labels == labels
      ensures registeredMetrics == map[] && histogramSpecs == map[] && order == []
      ensures values == map[] && histograms == map[] && observed == map[]
    {
      this.labels := labels;
      registeredMetrics, histogramSpecs, order := map[], map[], [];
      values, histograms, observed := map[], map[], map[];
    }

    /** `registerMetricExportType(name, kind)`: a new name starts at 0 with no
        observations; a name already registered is left as it is. */
    method RegisterMetricExportType(name: string, kind: StatType) returns (result: Registration)
      requires Valid()
      modifies this
      ensures Valid()
      ensures old(name in registeredMetrics || name in histogramSpecs) ==>
        && unchanged(this)
        && result == (if name in registeredMetrics && registeredMetrics[name] == kind
                      then AlreadyRegistered else KindConflict)
      ensures old(name !in registeredMetrics && name !in histogramSpecs) ==>
        && result == Registered
        && registeredMetrics == old(registeredMetrics)[name := kind]
        && values == old(values)[name := 0]
        && observed == old(observed)[name := []]
        && order == old(order) + [name]
        && histogramSpecs == old(histogramSpecs) && histograms == old(histograms)
    {
      if name in registeredMetrics || name in histogramSpecs {
        result := if name in registeredMetrics && registeredMetrics[name] == kind
                  then AlreadyRegistered else KindConflict;
        return;
      }
      ghost var r := State();
      registeredMetrics, values := registeredMetrics[name := kind], values[name := 0];
      observed, order := observed[name := []], order + [name];
      ConsistentRegisterScalar(r, State(), name, kind);
      result := Registered;
    }

    /** `addMetricValue(name, amount)`, with `amount` 1 when omitted: applies
        the update rule of the metric's kind; an unknown name is ignored. */
    method AddMetricValue(name: string, amount: nat := 1)
      requires Valid()
      modifies this
      ensures Valid()
      ensures name in old(registeredMetrics) ==>
        && name in old(values) && name in old(observed)
        && values == old(values)[name := ApplyScalar(old(registeredMetrics)[name], old(values[name]), amount)]
        && observed == old(observed)[name := old(observed[name]) + [amount]]
      ensures name !in old(registeredMetrics) ==> values == old(values) && observed == old(observed)
      ensures registeredMetrics == old(registeredMetrics) && histogramSpecs == old(histogramSpecs)
      ensures order == old(order) && histograms == old(histograms)
    {
      if name in registeredMetrics {
        ghost var r := State();
        Agrees(r, name);
        values, observed := values[name := ApplyScalar(registeredMetrics[name], values[name], amount)],
                            observed[name := observed[name] + [amount]];
        ConsistentAddScalar(r, State(), name, amount);
      }
    }

    /** `registerHistogramMetricExportType(name, bucketCount, min, max,
        quantiles)`: a histogram of `bucketCount` equal buckets over
        [min, max], with a summary of the given percentiles when there are
        any. A geometry without buckets or with an empty range is rejected. */
    method RegisterHistogramMetricExportType(name: string, bucketCount: nat, min: int, max: int, quantiles: seq<nat>)
      returns (result: Registration)
      requires Valid()
      requires ValidQuantiles(quantiles)
      requires AcceptedGeometry(HistogramSpec(bucketCount, min, max, quantiles)) ==> (max - min) % bucketCount == 0
      modifies this
      ensures Valid()
      ensures !AcceptedGeometry(HistogramSpec(bucketCount, min, max, quantiles)) ==>
        unchanged(this) && result == InvalidGeometry
      ensures AcceptedGeometry(HistogramSpec(bucketCount, min, max, quantiles))
              && old(name in registeredMetrics || name in histogramSpecs) ==>
        && unchanged(this)
        && result == (if name in histogramSpecs && histogramSpecs[name] == HistogramSpec(bucketCount, min, max, quantiles)
                      then AlreadyRegistered else KindConflict)
      ensures AcceptedGeometry(HistogramSpec(bucketCount, min, max, quantiles))
              && old(name !in registeredMetrics && name !in histogramSpecs) ==>
        var spec := HistogramSpec(bucketCount, min, max, quantiles);
        && result == Registered
        && histogramSpecs == old(histogramSpecs)[name := spec]
        && histograms == old(histograms)[name := NewHistogram(spec)]
        && observed == old(observed)[name := []]
        && order == old(order) + [name]
        && registeredMetrics == old(registeredMetrics) && values == old(values)
    {
      var spec := HistogramSpec(bucketCount, min, max, quantiles);
      if !AcceptedGeometry(spec) {
        return InvalidGeometry;
      }
      if name in registeredMetrics || name in histogramSpecs {
        result := if name in histogramSpecs && histogramSpecs[name] == spec
                  then AlreadyRegistered else KindConflict;
        return;
      }
      ghost var r := State();
      histogramSpecs, histograms := histogramSpecs[name := spec], histograms[name := NewHistogram(spec)];
      observed, order := observed[name := []], order + [name];
      ConsistentRegisterHistogram(r, State(), name, spec);
      result := Registered;
    }

    /** `addHistogramMetricValue(name, value)`: one observation of a
        registered histogram; an unknown name is ignored. */
    method AddHistogramMetricValue(name: string, value: nat)
      requires Valid()
      modifies this
      ensures Valid()
      ensures name in old(histogramSpecs) ==>
        && name in old(histograms) && name in old(observed)
        && Observable(old(histogramSpecs)[name], old(histograms[name]))
        && histograms == old(histograms)[name := Observe(old(histogramSpecs)[name], old(histograms[name]), value)]
        && observed == old(observed)[name := old(observed[name]) + [value]]
      ensures name !in old(histogramSpecs) ==> histograms == old(histograms) && observed == old(observed)
      ensures registeredMetrics == old(registeredMetrics) && histogramSpecs == old(histogramSpecs)
      ensures order == old(order) && values == old(values)
    {
      if name in histogramSpecs {
        ghost var r := State();
        Agrees(r, name);
        histograms, observed := histograms[name := Observe(histogramSpecs[name], histograms[name], value)],
                                observed[name := observed[name] + [value]];
        ConsistentObserve(r, State(), name, value);
      }
    }

    /** The invariant spelled out: every name in the order is registered
        once, and every registered metric's state is what its observations
        determine. */
    lemma Unpacked()
      requires Valid()
      ensures forall i :: 0 <= i < |order| ==> order[i] in registeredMetrics || order[i] in histogramSpecs
      ensures forall i, j :: 0 <= i < j < |order| ==> order[i] != order[j]
      ensures forall n :: n in registeredMetrics ==>
        && n !in histogramSpecs && n in values && n in observed
        && values[n] == ScalarValue(registeredMetrics[n], observed[n])
      ensures forall n :: n in histogramSpecs ==>
        && n in histograms && n in observed && ValidSpec(histogramSpecs[n])
        && histograms[n] == Replay(histogramSpecs[n], observed[n])
    {
      forall i | 0 <= i < |order|
        ensures order[i] in registeredMetrics || order[i] in histogramSpecs
      {
        Placed(State(), i);
      }
      forall i, j | 0 <= i < j < |order|
        ensures order[i] != order[j]
      {
        Placed(State(), i);
      }
      forall n | n in registeredMetrics || n in histogramSpecs
        ensures NameAgrees(State(), n)
      {
        Agrees(State(), n);
      }
    }

    /** The registry as the serializer reads it: one entry per registered
        metric, in registration order, each reporting what its observations
        determine. */
    function Snapshot(): (es: seq<Entry>)
      reads this
      requires Valid()
      ensures WellFormed(es) && |es| == |order|
      ensures forall i :: 0 <= i < |es| ==> es[i].name == order[i]
      ensures forall i :: 0 <= i < |es| ==> (es[i].ScalarEntry? <==> order[i] in registeredMetrics)
      ensures forall i :: 0 <= i < |es| && es[i].ScalarEntry? ==>
        order[i] in registeredMetrics && order[i] in observed && es[i].kind == registeredMetrics[order[i]] && es[i].value == ScalarValue(es[i].kind, observed[order[i]])
      ensures forall i :: 0 <= i < |es| && es[i].HistogramEntry? ==>
        order[i] in histogramSpecs && order[i] in observed && es[i].spec == histogramSpecs[order[i]] && es[i].acc == Replay(es[i].spec, observed[order[i]])
    {
      Unpacked();
      var o, kinds, vals, specs, accs := order, registeredMetrics, values, histogramSpecs, histograms;
      seq(|o|, i requires 0 <= i < |o| =>
        if o[i] in kinds then ScalarEntry(o[i], kinds[o[i]], vals[o[i]])
        else HistogramEntry(o[i], specs[o[i]], accs[o[i]]))
    }

    /** `getSerializedMetrics()`: the page of the current snapshot. It ends
        with a newline once anything is registered, and, when no name and no
        label holds a newline, cutting it at its newlines gives back every
        serialized line in order. */
    function GetSerializedMetrics(): (page: string)
      reads this
      requires Valid()
      ensures |order| > 0 ==> page != [] && page[|page| - 1] == '\n'
      ensures LabelsNoNewline(labels) && NamesNoNewline(Snapshot()) ==>
        CompleteLines(page) == Texts(labels, Serialize(Snapshot()))
    {
      var es := Snapshot();
      if LabelsNoNewline(labels) && NamesNoNewline(es) then
        PageReadsBack(labels, es);
        Page(labels, es)
      else
        Page(labels, es)
    }
  }
}
