/** What the entries of the aggregator's map say, in terms of the measurements that were filed: integers, unsigned
    values, floats and timers as they were given. */
module AggregatorEntries {
  import opened Aggregations
  import opened AggregatorRuns
  import opened Aggregators
  import opened Folds
  import opened GoodmetricsExport
  import opened Histograms
  import opened Options
  import opened StatisticSets
  import opened Types
  import OnlineTdigests

  // ----- observations

  /** These are the values of the observations among the measurements, in order. */
  predicate ObservedAs(ms: seq<Measurement>, vs: seq<int>) {
    if ms == [] then vs == [] else
      var front, m := ms[..|ms| - 1], ms[|ms| - 1];
      if m.Observed? then vs != [] && MeasuresAs(m.observation, vs[|vs| - 1]) && ObservedAs(front, vs[..|vs| - 1])
      else ObservedAs(front, vs)
  }

  lemma {:induction false} ObservedAsValues(ms: seq<Measurement>, vs: seq<int>)
    ensures ObservedAs(ms, vs) <==> vs == ObservedValues(ms)
  {
    hide MeasuresAs, Observation.Value;
    if ms != [] {
      var front, m := ms[..|ms| - 1], ms[|ms| - 1];
      if m.Observed? {
        if vs != [] {
          ObservedAsValues(front, vs[..|vs| - 1]);
          ValueMeasures(m.observation, vs[|vs| - 1]);
          assert vs == vs[..|vs| - 1] + [vs[|vs| - 1]];
        }
      } else {
        ObservedAsValues(front, vs);
        assert ObservedValues(front) + [] == ObservedValues(front);
      }
    }
  }

  /** A key first used for an observation: the entry has the number and the sum of the values of all its observations,
      and the least and the greatest of them. */
  lemma StatisticsEntry(mode: Mode, metrics: AggregatedMetrics, rs: seq<Received>, key: Key, vs: seq<int>)
    requires Groups(mode, metrics, rs) && Group(rs, key) != [] && Group(rs, key)[0].Observed?
    requires ObservedAs(Group(rs, key), vs)
    ensures vs != [] && Summarized(Lookup(metrics, key), vs)
  {
    hide Groups, Lookup, Group, Summary, Stats, SumOf, ObservedAs;
    EntryContents(mode, metrics, rs, key);
    ObservedAsValues(Group(rs, key), vs);
    StatsAreSummary(vs);
    FirstIsObserved(Group(rs, key));
  }

  lemma {:induction false} FirstIsObserved(ms: seq<Measurement>)
    requires ms != [] && ms[0].Observed?
    ensures ObservedValues(ms) != []
  {
    if |ms| > 1 {
      FirstIsObserved(ms[..|ms| - 1]);
    }
  }

  // ----- sums

  /** These are the amounts among the measurements, in order. */
  predicate SummedAs(ms: seq<Measurement>, vs: seq<int>) {
    if ms == [] then vs == [] else
      var front, m := ms[..|ms| - 1], ms[|ms| - 1];
      if m.Summed? then vs != [] && vs[|vs| - 1] == m.v && SummedAs(front, vs[..|vs| - 1]) else SummedAs(front, vs)
  }

  lemma {:induction false} SummedAsValues(ms: seq<Measurement>, vs: seq<int>)
    ensures SummedAs(ms, vs) <==> vs == SummedValues(ms)
  {
    if ms != [] {
      var front, m := ms[..|ms| - 1], ms[|ms| - 1];
      if m.Summed? {
        if vs != [] {
          SummedAsValues(front, vs[..|vs| - 1]);
          assert vs == vs[..|vs| - 1] + [vs[|vs| - 1]];
        }
      } else {
        SummedAsValues(front, vs);
        assert SummedValues(front) + [] == SummedValues(front);
      }
    }
  }

  /** A key first used for a sum holds the sum of all its amounts. */
  lemma SumEntry(mode: Mode, metrics: AggregatedMetrics, rs: seq<Received>, key: Key, vs: seq<int>)
    requires Groups(mode, metrics, rs) && Group(rs, key) != [] && Group(rs, key)[0].Summed?
    requires SummedAs(Group(rs, key), vs)
    ensures Lookup(metrics, key) == Some(Sum(SumOf(vs)))
  {
    hide Groups, Lookup, Group, SumOf, SummedAs;
    EntryContents(mode, metrics, rs, key);
    SummedAsValues(Group(rs, key), vs);
  }

  // ----- distributions

  /** These are the values of the distributions among the measurements, one list for each. */
  predicate SpreadAs(ms: seq<Measurement>, lists: seq<seq<int>>) {
    if ms == [] then lists == [] else
      var front, m := ms[..|ms| - 1], ms[|ms| - 1];
      if m.Distributed?
      then lists != [] && SpreadsAs(m.distribution, lists[|lists| - 1]) && SpreadAs(front, lists[..|lists| - 1])
      else SpreadAs(front, lists)
  }

  lemma {:induction false} SpreadAsValues(ms: seq<Measurement>, lists: seq<seq<int>>)
    requires SpreadAs(ms, lists)
    ensures Flat(lists) == DistributedValues(ms)
  {
    hide SpreadsAs, Distribution.Values, Flat;
    if ms == [] {
      EmptyFlat<int>();
    } else {
      var front, m := ms[..|ms| - 1], ms[|ms| - 1];
      if m.Distributed? {
        SpreadAsValues(front, lists[..|lists| - 1]);
        ValuesSpread(m.distribution, lists[|lists| - 1]);
        FlatNext(lists);
      } else {
        SpreadAsValues(front, lists);
        assert DistributedValues(front) + [] == DistributedValues(front);
      }
    }
  }

  lemma EmptyFlat<T>()
    ensures Flat<T>([]) == []
  {
  }

  /** A key first used for a distribution, in histogram mode: each bucket holds the number of its values, and there are
      no other buckets. */
  lemma HistogramEntry(metrics: AggregatedMetrics, rs: seq<Received>, key: Key, lists: seq<seq<int>>, b: int)
    requires Groups(HistogramMode, metrics, rs) && Group(rs, key) != [] && Group(rs, key)[0].Distributed?
    requires SpreadAs(Group(rs, key), lists)
    ensures Lookup(metrics, key).Some? && Lookup(metrics, key).value.Histogram?
    ensures var counts := Lookup(metrics, key).value.counts;
      CountAt(counts, b) == Hits(Flat(lists), b) && (b in counts <==> Hits(Flat(lists), b) > 0)
  {
    hide Groups, Lookup, Group, Tally, Hits, SpreadAs, Flat;
    EntryContents(HistogramMode, metrics, rs, key);
    SpreadAsValues(Group(rs, key), lists);
    TallyCounts(Flat(lists), b);
  }

  /** These are the distributions among the measurements, in order. */
  predicate DistributedAs(ms: seq<Measurement>, ds: seq<Distribution>) {
    if ms == [] then ds == [] else
      var front, m := ms[..|ms| - 1], ms[|ms| - 1];
      if m.Distributed? then ds != [] && ds[|ds| - 1] == m.distribution && DistributedAs(front, ds[..|ds| - 1])
      else DistributedAs(front, ds)
  }

  lemma {:induction false} DistributedAsGiven(ms: seq<Measurement>, ds: seq<Distribution>)
    requires DistributedAs(ms, ds)
    ensures ds == Distributions(ms)
  {
    if ms != [] {
      var front, m := ms[..|ms| - 1], ms[|ms| - 1];
      if m.Distributed? {
        DistributedAsGiven(front, ds[..|ds| - 1]);
        assert ds == ds[..|ds| - 1] + [m.distribution];
      } else {
        DistributedAsGiven(front, ds);
        assert Distributions(front) + [] == Distributions(front);
      }
    }
  }

  /** A key first used for a distribution, with exponential histograms: the entry was given all its distributions. */
  lemma ExponentialEntry(metrics: AggregatedMetrics, rs: seq<Received>, key: Key, ds: seq<Distribution>)
    requires Groups(ExponentialMode, metrics, rs) && Group(rs, key) != [] && Group(rs, key)[0].Distributed?
    requires DistributedAs(Group(rs, key), ds)
    ensures Lookup(metrics, key) == Some(Exponential(ds))
  {
    hide Groups, Lookup, Group, DistributedAs;
    EntryContents(ExponentialMode, metrics, rs, key);
    DistributedAsGiven(Group(rs, key), ds);
  }

  /** These are the values that sketches take from the distributions among the measurements. */
  predicate SketchedAs(ms: seq<Measurement>, lists: seq<seq<real>>) {
    if ms == [] then lists == [] else
      var front, m := ms[..|ms| - 1], ms[|ms| - 1];
      if m.Distributed?
      then lists != [] && SketchesAs(m.distribution, lists[|lists| - 1]) && SketchedAs(front, lists[..|lists| - 1])
      else SketchedAs(front, lists)
  }

  lemma {:induction false} SketchedAsValues(ms: seq<Measurement>, lists: seq<seq<real>>)
    requires SketchedAs(ms, lists)
    ensures Flat(lists) == SketchedValues(ms)
  {
    hide SketchesAs, Distribution.RealValues, Flat;
    if ms == [] {
      EmptyFlat<real>();
    } else {
      var front, m := ms[..|ms| - 1], ms[|ms| - 1];
      if m.Distributed? {
        SketchedAsValues(front, lists[..|lists| - 1]);
        RealValuesSketch(m.distribution, lists[|lists| - 1]);
        FlatNext(lists);
      } else {
        SketchedAsValues(front, lists);
        assert SketchedValues(front) + [] == SketchedValues(front);
      }
    }
  }

  /** A key first used for a distribution, sketched: the sketch stands for all values of its distributions, and its
      wire form says what they were. */
  lemma SketchEntry(metrics: AggregatedMetrics, rs: seq<Received>, key: Key, lists: seq<seq<real>>)
    requires Groups(TDigestMode, metrics, rs) && Group(rs, key) != [] && Group(rs, key)[0].Distributed?
    requires SketchedAs(Group(rs, key), lists)
    ensures Lookup(metrics, key).Some? && Lookup(metrics, key).value.TDigest?
    ensures var sketch := Lookup(metrics, key).value.digest;
      OnlineTdigests.StandsFor(sketch, Flat(lists))
      && WireDescribes(ToWire(OnlineTdigests.Flushed(sketch).current), Flat(lists))
  {
    hide Groups, Lookup, Group, SketchedAs, Flat, Sketch, WireDescribes, ToWire, SketchedValues;
    hide OnlineTdigests.StandsFor, OnlineTdigests.Flushed, OnlineTdigests.Summarizes;
    EntryContents(TDigestMode, metrics, rs, key);
    SketchedAsValues(Group(rs, key), lists);
    SketchStandsFor(Flat(lists));
    SketchOnTheWire(metrics, rs, key);
  }

  /** Every list of measurements has such values. */
  lemma {:induction false} MeasurementsHaveValues(ms: seq<Measurement>)
    returns (vs: seq<int>, sums: seq<int>, lists: seq<seq<int>>, sketched: seq<seq<real>>, ds: seq<Distribution>)
    ensures ObservedAs(ms, vs) && SummedAs(ms, sums)
    ensures SpreadAs(ms, lists) && SketchedAs(ms, sketched) && DistributedAs(ms, ds)
  {
    hide MeasuresAs, SpreadsAs, SketchesAs, Observation.Value, Distribution.Values, Distribution.RealValues;
    vs, sums, lists, sketched, ds := [], [], [], [], [];
    if ms != [] {
      var front, m := ms[..|ms| - 1], ms[|ms| - 1];
      vs, sums, lists, sketched, ds := MeasurementsHaveValues(front);
      match m {
        case Observed(o) =>
          ValueMeasures(o, o.Value());
          assert (vs + [o.Value()])[..|vs|] == vs;
          vs := vs + [o.Value()];
        case Summed(v) =>
          assert (sums + [v])[..|sums|] == sums;
          sums := sums + [v];
        case Distributed(d) =>
          ValuesSpread(d, d.Values());
          RealValuesSketch(d, d.RealValues());
          assert (lists + [d.Values()])[..|lists|] == lists;
          assert (sketched + [d.RealValues()])[..|sketched|] == sketched;
          assert (ds + [d])[..|ds|] == ds;
          lists, sketched, ds := lists + [d.Values()], sketched + [d.RealValues()], ds + [d];
      }
    }
  }
}
