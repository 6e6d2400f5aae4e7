/** The aggregations a measurement can be collected into, and what each of them makes of a measurement. */
module Aggregations {
  import opened Folds
  import opened Options
  import opened Types
  import opened StatisticSets
  import opened Histograms
  import OnlineTdigests

  datatype Mode = ExponentialMode | HistogramMode | TDigestMode

  type Online = s: OnlineTdigests.Online | OnlineTdigests.Good(s) ghost witness OnlineTdigests.EMPTY

  /** The exponential histogram lives in another crate: here it is the distributions it was given. */
  datatype Aggregation =
    | Sum(sum: int)
    | Exponential(absorbed: seq<Distribution>)
    | Histogram(counts: Counts)
    | Statistics(statistics: StatisticSet)
    | TDigest(digest: Online)

  // ----- one measurement

  function ObserveOne(digest: Online, x: real): Online {
    OnlineTdigests.NextGood(digest, OnlineTdigests.Observe(x));
    OnlineTdigests.Next(digest, OnlineTdigests.Observe(x)).0
  }

  const NO_SKETCH: Online := OnlineTdigests.EMPTY

  function Sketch(digest: Online, xs: seq<real>): Online {
    Fold<Online, real>(ObserveOne, digest, xs)
  }

  /** What a name is collected into when this measurement is its first. */
  function Fresh(mode: Mode, m: Measurement): Aggregation {
    match m
    case Observed(_) => Statistics(NO_VALUES)
    case Summed(_) => Sum(0)
    case Distributed(_) =>
      match mode
      case ExponentialMode => Exponential([])
      case HistogramMode => Aggregation.Histogram(map[])
      case TDigestMode => TDigest(NO_SKETCH)
  }

  /** A measurement of another kind than the aggregation's is ignored. */
  function Absorb(a: Aggregation, m: Measurement): Aggregation {
    match (a, m)
    case (Statistics(s), Observed(o)) => Statistics(Accumulate(s, o.Value()))
    case (Sum(sum), Summed(v)) => Sum(sum + v)
    case (Histogram(counts), Distributed(d)) => Aggregation.Histogram(Fold(Record, counts, d.Values()))
    case (TDigest(digest), Distributed(d)) => TDigest(Sketch(digest, d.RealValues()))
    case (Exponential(absorbed), Distributed(d)) => Exponential(absorbed + [d])
    case _ => a
  }

  function AbsorbInto(mode: Mode, entry: Option<Aggregation>, m: Measurement): Aggregation {
    Absorb(if entry.Some? then entry.value else Fresh(mode, m), m)
  }

  /** What the measurements of one name are collected into. */
  function Collected(mode: Mode, ms: seq<Measurement>): Option<Aggregation> {
    if ms == [] then None
    else Some(AbsorbInto(mode, Collected(mode, ms[..|ms| - 1]), ms[|ms| - 1]))
  }

  // ----- in terms of the plain values

  function ObservedValues(ms: seq<Measurement>): seq<int> {
    if ms == [] then [] else
      var m := ms[|ms| - 1];
      ObservedValues(ms[..|ms| - 1]) + (if m.Observed? then [m.observation.Value()] else [])
  }

  function SummedValues(ms: seq<Measurement>): seq<int> {
    if ms == [] then [] else
      var m := ms[|ms| - 1];
      SummedValues(ms[..|ms| - 1]) + (if m.Summed? then [m.v] else [])
  }

  function DistributedValues(ms: seq<Measurement>): seq<int> {
    if ms == [] then [] else
      var m := ms[|ms| - 1];
      DistributedValues(ms[..|ms| - 1]) + (if m.Distributed? then m.distribution.Values() else [])
  }

  function SketchedValues(ms: seq<Measurement>): seq<real> {
    if ms == [] then [] else
      var m := ms[|ms| - 1];
      SketchedValues(ms[..|ms| - 1]) + (if m.Distributed? then m.distribution.RealValues() else [])
  }

  function Distributions(ms: seq<Measurement>): seq<Distribution> {
    if ms == [] then [] else
      var m := ms[|ms| - 1];
      Distributions(ms[..|ms| - 1]) + (if m.Distributed? then [m.distribution] else [])
  }

  /** The aggregation of all measurements in ms that are of the kind of first. */
  function OfKind(mode: Mode, first: Measurement, ms: seq<Measurement>): Aggregation {
    match first
    case Observed(_) => Statistics(Stats(ObservedValues(ms)))
    case Summed(_) => Sum(SumOf(SummedValues(ms)))
    case Distributed(_) =>
      match mode
      case ExponentialMode => Exponential(Distributions(ms))
      case HistogramMode => Aggregation.Histogram(Tally(DistributedValues(ms)))
      case TDigestMode => TDigest(Sketch(NO_SKETCH, SketchedValues(ms)))
  }

  lemma OfKindNothing(mode: Mode, first: Measurement)
    ensures OfKind(mode, first, []) == Fresh(mode, first)
  {
  }

  lemma OfKindNext(mode: Mode, first: Measurement, ms: seq<Measurement>)
    requires ms != []
    ensures OfKind(mode, first, ms) == Absorb(OfKind(mode, first, ms[..|ms| - 1]), ms[|ms| - 1])
  {
    hide Stats, SumOf, Tally, Fold;
    var front, m := ms[..|ms| - 1], ms[|ms| - 1];
    match first {
      case Observed(_) =>
        if m.Observed? {
          StatsNext(ObservedValues(front), m.observation.Value());
        }
        assert ObservedValues(front) + [] == ObservedValues(front);
      case Summed(_) =>
        if m.Summed? {
          SumNext(SummedValues(front), m.v);
        }
        assert SummedValues(front) + [] == SummedValues(front);
      case Distributed(_) =>
        if m.Distributed? {
          TallyMore(DistributedValues(front), m.distribution.Values());
          FoldConcat<Online, real>(ObserveOne, NO_SKETCH, SketchedValues(front), m.distribution.RealValues());
        }
        assert DistributedValues(front) + [] == DistributedValues(front);
        assert SketchedValues(front) + [] == SketchedValues(front);
        assert Distributions(front) + [] == Distributions(front);
    }
  }

  /** The first measurement decides the kind; the result is made of all measurements of that kind and no other. */
  lemma {:induction false} FirstKindWins(mode: Mode, ms: seq<Measurement>)
    requires ms != []
    ensures Collected(mode, ms) == Some(OfKind(mode, ms[0], ms))
  {
    hide OfKind, Absorb, Fresh;
    var front := ms[..|ms| - 1];
    OfKindNext(mode, ms[0], ms);
    if front == [] {
      OfKindNothing(mode, ms[0]);
      assert Collected(mode, []) == None;
    } else {
      FirstKindWins(mode, front);
    }
  }

  lemma SumNext(vs: seq<int>, v: int)
    ensures SumOf(vs + [v]) == SumOf(vs) + v
  {
    assert (vs + [v])[..|vs|] == vs;
  }

  lemma TallyMore(vs: seq<int>, ws: seq<int>)
    ensures Fold(Record, Tally(vs), ws) == Tally(vs + ws)
  {
    FoldConcat(Record, map[], vs, ws);
  }

  /** The entry summarizes these values; without values there is none. */
  predicate Summarized(entry: Option<Aggregation>, vs: seq<int>) {
    if vs == [] then entry == None
    else entry.Some? && entry.value.Statistics? && Summary(entry.value.statistics, vs)
  }

  /** An entry that summarizes some values summarizes one more after an observation. */
  lemma SummarizedNext(mode: Mode, entry: Option<Aggregation>, vs: seq<int>, o: Observation, v: int)
    requires Summarized(entry, vs) && MeasuresAs(o, v)
    ensures Summarized(Some(AbsorbInto(mode, entry, Observed(o))), vs + [v])
  {
    hide MeasuresAs, Observation.Value, Summary, Accumulate;
    ValueMeasures(o, v);
    SummaryNext(if vs == [] then NO_VALUES else entry.value.statistics, vs, v);
  }

  // ----- the order of arrival

  /** All measurements are of one kind, and that kind is not a sketch. */
  predicate Plain(mode: Mode, ms: seq<Measurement>) {
    || (forall i :: 0 <= i < |ms| ==> ms[i].Observed?)
    || (forall i :: 0 <= i < |ms| ==> ms[i].Summed?)
    || (mode.HistogramMode? && forall i :: 0 <= i < |ms| ==> ms[i].Distributed?)
  }

  predicate IsSketch(a: Aggregation) {
    a.TDigest? || a.Exponential?
  }

  function AbsorbPlain(a: Aggregation, m: Measurement): Aggregation {
    if IsSketch(a) then a else Absorb(a, m)
  }

  /** From a first measurement on, collecting is folding. */
  lemma {:induction false} CollectedIsFold(mode: Mode, ms: seq<Measurement>, start: Aggregation)
    requires ms != [] && start == Fresh(mode, ms[0]) && !IsSketch(start)
    ensures Collected(mode, ms) == Some(Fold(AbsorbPlain, start, ms))
    ensures !IsSketch(Fold(AbsorbPlain, start, ms))
  {
    var front := ms[..|ms| - 1];
    if front == [] {
      assert Collected(mode, front) == None;
      assert Fold(AbsorbPlain, start, front) == start;
    } else {
      CollectedIsFold(mode, front, start);
    }
  }

  lemma StatisticsCommute()
    ensures forall s, v, w :: Accumulate(Accumulate(s, v), w) == Accumulate(Accumulate(s, w), v)
  {
    StepsCommute();
  }

  /** Two measurements may trade places in an aggregation that is not a sketch. */
  lemma AbsorbTwice(a: Aggregation, x: Measurement, y: Measurement)
    ensures AbsorbPlain(AbsorbPlain(a, x), y) == AbsorbPlain(AbsorbPlain(a, y), x)
  {
    hide Record, Fold, Sketch, Accumulate, Distribution.Values, Distribution.RealValues;
    StatisticsCommute();
    if a.Histogram? && x.Distributed? && y.Distributed? {
      var vs, ws := x.distribution.Values(), y.distribution.Values();
      RecordCommutes();
      FoldConcat(Record, a.counts, vs, ws);
      FoldConcat(Record, a.counts, ws, vs);
      FoldIgnoresOrder(Record, a.counts, vs + ws, ws + vs);
    }
  }

  /** The result of measurements of one kind does not depend on their order, except for the sketches. */
  lemma CollectedIgnoresOrder(mode: Mode, ms: seq<Measurement>, ns: seq<Measurement>)
    requires multiset(ms) == multiset(ns) && Plain(mode, ms)
    ensures Collected(mode, ms) == Collected(mode, ns)
  {
    hide Fold, Absorb, AbsorbPlain;
    assert |multiset(ms)| == |ms| && |multiset(ns)| == |ns|;
    if ms != [] {
      assert ns[0] in multiset(ms);
      var start := Fresh(mode, ms[0]);
      CollectedIsFold(mode, ms, start);
      CollectedIsFold(mode, ns, start);
      forall a, x, y ensures AbsorbPlain(AbsorbPlain(a, x), y) == AbsorbPlain(AbsorbPlain(a, y), x) {
        AbsorbTwice(a, x, y);
      }
      FoldIgnoresOrder(AbsorbPlain, start, ms, ns);
    } else {
      assert ns == [];
    }
  }
}
