/** What the aggregator's map says over whole runs of receiving and draining. */
module AggregatorRuns {
  import opened Aggregations
  import opened Aggregators
  import opened Folds
  import opened Histograms
  import opened Options
  import opened StatisticSets
  import opened Types
  import opened GoodmetricsExport
  import opened OtlpHistograms
  import opened DigestGroups

  /** Each entry is made of exactly the measurements of its key that are of the kind of the first one. */
  lemma EntryContents(mode: Mode, metrics: AggregatedMetrics, rs: seq<Received>, key: Key)
    requires Groups(mode, metrics, rs)
    ensures Lookup(metrics, key).None? <==> Group(rs, key) == []
    ensures Group(rs, key) != [] ==> Lookup(metrics, key) == Some(OfKind(mode, Group(rs, key)[0], Group(rs, key)))
  {
    if Group(rs, key) != [] {
      FirstKindWins(mode, Group(rs, key));
    }
    assert Lookup(metrics, key) == Collected(mode, Group(rs, key));
  }

  // ----- what is exported for a key of distributions

  lemma {:induction false} SketchStandsFor(xs: seq<real>)
    ensures OnlineTdigests.StandsFor(Sketch(NO_SKETCH, xs), xs)
  {
    if xs == [] {
      OnlineTdigests.EmptySummarizes();
      assert Sketch(NO_SKETCH, xs) == NO_SKETCH;
    } else {
      var front, x := xs[..|xs| - 1], xs[|xs| - 1];
      SketchStandsFor(front);
      OnlineTdigests.NextRefines(Sketch(NO_SKETCH, front), front, OnlineTdigests.Observe(x));
      assert front + [x] == xs;
    }
  }

  /** A key first used for a distribution, sketched: the digest on the wire says what the values of its distributions
      were. */
  lemma SketchOnTheWire(metrics: AggregatedMetrics, rs: seq<Received>, key: Key)
    requires Groups(TDigestMode, metrics, rs) && Group(rs, key) != [] && Group(rs, key)[0].Distributed?
    ensures var entry, xs := Lookup(metrics, key), SketchedValues(Group(rs, key));
      && entry.Some? && entry.value.TDigest?
      && var digest := OnlineTdigests.Flushed(entry.value.digest).current;
      && OnlineTdigests.Summarizes(digest, xs) && WireDescribes(ToWire(digest), xs)
      && WireWeight(ToWire(digest).centroids, |digest.centroids|) == |xs|
  {
    hide Groups, Lookup, Group, SketchedValues, Sketch, ToWire, WireDescribes;
    hide OnlineTdigests.Summarizes, OnlineTdigests.Flushed;
    EntryContents(TDigestMode, metrics, rs, key);
    SketchShipped(SketchedValues(Group(rs, key)));
  }

  lemma SketchShipped(xs: seq<real>)
    ensures var digest := OnlineTdigests.Flushed(Sketch(NO_SKETCH, xs)).current;
      && OnlineTdigests.Summarizes(digest, xs) && WireDescribes(ToWire(digest), xs)
      && WireWeight(ToWire(digest).centroids, |digest.centroids|) == |xs|
  {
    hide OnlineTdigests.StandsFor, OnlineTdigests.Summarizes, OnlineTdigests.Flushed, Sketch, WireDescribes;
    SketchStandsFor(xs);
    SketchFlushed(Sketch(NO_SKETCH, xs), xs);
    WireOfSummary(OnlineTdigests.Flushed(Sketch(NO_SKETCH, xs)).current, xs);
    ShippedWeightsAddUp(OnlineTdigests.Flushed(Sketch(NO_SKETCH, xs)).current, xs);
  }

  lemma SketchFlushed(s: Online, xs: seq<real>)
    requires OnlineTdigests.StandsFor(s, xs)
    ensures OnlineTdigests.Summarizes(OnlineTdigests.Flushed(s).current, xs)
  {
    OnlineTdigests.FlushedStandsFor(s, xs);
  }

  /** A key first used for a distribution, in histogram mode: the exported histogram is the one of the values of its
      distributions, and faithful to them exactly if no negative one was moved by its bucket. */
  lemma HistogramOnTheWire(metrics: AggregatedMetrics, rs: seq<Received>, key: Key, point: DataPoint)
    requires Groups(HistogramMode, metrics, rs) && Group(rs, key) != [] && Group(rs, key)[0].Distributed?
    requires Lookup(metrics, key).Some? && Lookup(metrics, key).value.Histogram?
             ==> Exported(Lookup(metrics, key).value.counts, point)
    ensures var entry, vs := Lookup(metrics, key), DistributedValues(Group(rs, key));
      && entry == Some(Aggregation.Histogram(Tally(vs)))
      && Rising(point.bounds) && |point.counts| == |point.bounds| + 1 && point.count == |vs|
      && (Faithful(vs, point) <==> forall j :: 0 <= j < |vs| && vs[j] < 0 ==> !Moved(vs[j]))
  {
    hide Exported, Tally, Faithful, Moved, Rising;
    EntryContents(HistogramMode, metrics, rs, key);
    var vs := DistributedValues(Group(rs, key));
    assert Exported(Tally(vs), point);
    ExportWellFormed(vs, point);
    FaithfulIffNegativesUnmoved(vs, point);
  }

  // ----- the order of arrival

  lemma {:induction false} GroupIgnoresOrder(rs: seq<Received>, qs: seq<Received>, key: Key)
    requires multiset(rs) == multiset(qs)
    ensures multiset(Group(rs, key)) == multiset(Group(qs, key))
    decreases |rs|
  {
    hide Matching, Group;
    if rs == [] {
      SameNothing(qs);
    } else {
      var front, r := rs[..|rs| - 1], rs[|rs| - 1];
      assert rs == front + [r];
      var before, after := TakeOut(r, front, qs);
      GroupIgnoresOrder(front, before + after, key);
      GroupConcat(before, after, key);
      GroupConcat(before + [r], after, key);
      GroupNext(before, r, key);
      GroupNext(front, r, key);
    }
  }

  /** The same objects received in another order give the same statistics, sums and histograms, for every key that is
      only used with one kind of measurement. */
  lemma ArrivalOrderIrrelevant(
      mode: Mode, metrics: AggregatedMetrics, rs: seq<Received>, other: AggregatedMetrics, qs: seq<Received>, key: Key)
    requires Groups(mode, metrics, rs) && Groups(mode, other, qs)
    requires multiset(rs) == multiset(qs) && Plain(mode, Group(rs, key))
    ensures Lookup(metrics, key) == Lookup(other, key)
  {
    GroupIgnoresOrder(rs, qs, key);
    CollectedIgnoresOrder(mode, Group(rs, key), Group(qs, key));
  }

  // ----- windows

  datatype Op = Receive(r: Received) | Drain

  /** What a draining batcher is handed, one window a time, and what is left. */
  datatype Windows = Windows(drained: seq<seq<Received>>, residual: seq<Received>)

  function RunOp(w: Windows, op: Op): Windows {
    match op
    case Receive(r) => w.(residual := w.residual + [r])
    case Drain => if w.residual == [] then w else Windows(w.drained + [w.residual], [])
  }

  function Run(ops: seq<Op>): Windows {
    Fold(RunOp, Windows([], []), ops)
  }

  function AllReceived(ops: seq<Op>): seq<Received> {
    if ops == [] then [] else
      AllReceived(ops[..|ops| - 1]) + (if ops[|ops| - 1].Receive? then [ops[|ops| - 1].r] else [])
  }

  function WindowsFlat(w: Windows): seq<Received> {
    Flat(w.drained) + w.residual
  }

  lemma RunOpFlat(w: Windows, op: Op)
    ensures WindowsFlat(RunOp(w, op)) == WindowsFlat(w) + (if op.Receive? then [op.r] else [])
  {
    var w' := RunOp(w, op);
    if w'.drained != w.drained {
      FlatNext(w'.drained);
      assert w'.drained[..|w'.drained| - 1] == w.drained;
    }
  }

  /** Every object received is in exactly one window or still there, and in order. */
  lemma {:induction false} NothingLost(ops: seq<Op>)
    ensures Flat(Run(ops).drained) + Run(ops).residual == AllReceived(ops)
  {
    hide RunOp, Flat;
    if ops == [] {
      NothingFlat();
    } else {
      var front := ops[..|ops| - 1];
      NothingLost(front);
      RunOpFlat(Run(front), ops[|ops| - 1]);
    }
  }

  lemma NothingFlat()
    ensures Flat<Received>([]) == []
  {
  }

  /** An aggregator object goes through the windows of its calls. */
  method Perform(aggregator: Aggregator, ops: seq<Op>) returns (batches: seq<AggregatedMetrics>)
    requires aggregator.Valid() && aggregator.received == []
    modifies aggregator
    ensures aggregator.Valid() && aggregator.received == Run(ops).residual
    ensures Batched(aggregator.mode, batches, Run(ops).drained)
  {
    batches := [];
    for k := 0 to |ops|
      invariant aggregator.Valid() && aggregator.received == Run(ops[..k]).residual
      invariant Batched(aggregator.mode, batches, Run(ops[..k]).drained)
    {
      assert ops[..k + 1][..k] == ops[..k];
      match ops[k] {
        case Receive(r) => aggregator.File(r);
        case Drain =>
          var batch := aggregator.DrainInto(metrics => (metrics, map[]));
          if batch.Some? {
            batches := batches + [batch.value];
          }
      }
    }
    assert ops[..|ops|] == ops;
  }

  // ----- conservation

  /** All measurements are of one kind. */
  predicate SingleKind(ms: seq<Measurement>) {
    || (forall i :: 0 <= i < |ms| ==> ms[i].Observed?)
    || (forall i :: 0 <= i < |ms| ==> ms[i].Summed?)
    || (forall i :: 0 <= i < |ms| ==> ms[i].Distributed?)
  }

  /** The values of some distributions, one after the other. */
  function Spread(ds: seq<Distribution>): seq<real> {
    if ds == [] then [] else Spread(ds[..|ds| - 1]) + ds[|ds| - 1].RealValues()
  }

  /** How many values an entry counts; what waits in the buffer of a sketch counts too. */
  function CountOf(entry: Option<Aggregation>): real {
    match entry
    case Some(Statistics(s)) => s.count as real
    case Some(Histogram(counts)) => Total(counts) as real
    case Some(TDigest(digest)) => digest.current.count + |digest.waiting| as real
    case Some(Exponential(absorbed)) => |Spread(absorbed)| as real
    case _ => 0.0
  }

  /** What the values of an entry add up to; a histogram does not know. */
  function SumIn(entry: Option<Aggregation>): real {
    match entry
    case Some(Statistics(s)) => s.sum as real
    case Some(Sum(sum)) => sum as real
    case Some(TDigest(digest)) => digest.current.sum + Values.Sum(digest.waiting)
    case Some(Exponential(absorbed)) => Values.Sum(Spread(absorbed))
    case _ => 0.0
  }

  /** How many values the measurements carry. */
  function ValueCount(ms: seq<Measurement>): real {
    (|ObservedValues(ms)| + |SketchedValues(ms)|) as real
  }

  /** What they add up to, where distributed values are only added up by the sketches. */
  function ValueSum(mode: Mode, ms: seq<Measurement>): real {
    (SumOf(ObservedValues(ms)) + SumOf(SummedValues(ms))) as real
    + (if mode.HistogramMode? then 0.0 else Values.Sum(SketchedValues(ms)))
  }

  lemma {:induction false} NothingOfAnotherKind(ms: seq<Measurement>)
    ensures (forall i :: 0 <= i < |ms| ==> !ms[i].Observed?) ==> ObservedValues(ms) == []
    ensures (forall i :: 0 <= i < |ms| ==> !ms[i].Summed?) ==> SummedValues(ms) == []
    ensures (forall i :: 0 <= i < |ms| ==> !ms[i].Distributed?) ==> SketchedValues(ms) == []
  {
    hide Distribution.RealValues;
    if ms != [] {
      NothingOfAnotherKind(ms[..|ms| - 1]);
    }
  }

  lemma {:induction false} SameCounts(ms: seq<Measurement>)
    ensures |DistributedValues(ms)| == |SketchedValues(ms)|
  {
    hide Distribution.RealValues, Distribution.Values;
    if ms != [] {
      SameCounts(ms[..|ms| - 1]);
      OneMeasurement(ms[|ms| - 1]);
    }
  }

  lemma {:induction false} SpreadOfDistributions(ms: seq<Measurement>)
    ensures Spread(Distributions(ms)) == SketchedValues(ms)
  {
    hide Distribution.RealValues;
    if ms != [] {
      var front, m := ms[..|ms| - 1], ms[|ms| - 1];
      SpreadOfDistributions(front);
      assert Distributions(front) + [] == Distributions(front);
      assert SketchedValues(front) + [] == SketchedValues(front);
    }
  }

  lemma OneMeasurement(m: Measurement)
    ensures m.Distributed? ==> |m.distribution.Values()| == |m.distribution.RealValues()|
  {
  }

  /** A sketch counts and sums what it was given, in its digest or in its buffer. */
  lemma SketchTotals(xs: seq<real>)
    ensures CountOf(Some(TDigest(Sketch(NO_SKETCH, xs)))) == |xs| as real
    ensures SumIn(Some(TDigest(Sketch(NO_SKETCH, xs)))) == Values.Sum(xs)
  {
    hide Sketch, OnlineTdigests.StandsFor, Values.Sum;
    SketchStandsFor(xs);
    StandsForTotals(Sketch(NO_SKETCH, xs), xs);
  }

  lemma StandsForTotals(digest: Online, xs: seq<real>)
    requires OnlineTdigests.StandsFor(digest, xs)
    ensures digest.current.count + |digest.waiting| as real == |xs| as real
    ensures digest.current.sum + Values.Sum(digest.waiting) == Values.Sum(xs)
  {
    hide Partitions, Values.Sum, TDigests.TDigest.Valid;
    var k := |xs| - |digest.waiting|;
    assert xs == xs[..k] + digest.waiting;
    Values.SumOfConcat(xs[..k], digest.waiting);
  }

  /** How many of the values are not counted, because their measurement is not of the kind of the first one. */
  function IgnoredCount(ms: seq<Measurement>): (n: real)
    ensures n >= 0.0
  {
    if ms == [] then 0.0 else
      match ms[0]
      case Observed(_) => |SketchedValues(ms)| as real
      case Summed(_) => (|ObservedValues(ms)| + |SketchedValues(ms)|) as real
      case Distributed(_) => |ObservedValues(ms)| as real
  }

  /** What those of them add up to that some aggregation would have added. */
  function IgnoredSum(mode: Mode, ms: seq<Measurement>): real {
    if ms == [] then 0.0 else
      var sketched := if mode.HistogramMode? then 0.0 else Values.Sum(SketchedValues(ms));
      match ms[0]
      case Observed(_) => SumOf(SummedValues(ms)) as real + sketched
      case Summed(_) => SumOf(ObservedValues(ms)) as real + sketched
      case Distributed(_) => (SumOf(ObservedValues(ms)) + SumOf(SummedValues(ms))) as real
  }

  /** In every mode, what an entry counts and sums and what it ignores are together all values of its measurements. */
  lemma EntryTotals(mode: Mode, ms: seq<Measurement>)
    ensures CountOf(Collected(mode, ms)) + IgnoredCount(ms) == ValueCount(ms)
    ensures SumIn(Collected(mode, ms)) + IgnoredSum(mode, ms) == ValueSum(mode, ms)
  {
    hide Stats, Tally, Total, SumOf, Collected, Sketch, Values.Sum, Spread;
    hide ObservedValues, SummedValues, DistributedValues, SketchedValues, Distributions;
    if ms == [] {
      NoValues();
      EmptySums();
      CollectedNothing(mode);
    } else {
      SameCounts(ms);
      SpreadOfDistributions(ms);
      FirstKindWins(mode, ms);
      StatsTotals(ObservedValues(ms));
      TallyTotal(DistributedValues(ms));
      SketchTotals(SketchedValues(ms));
    }
  }

  /** Nothing is ignored of measurements of one kind. */
  lemma SingleKindIgnoresNothing(mode: Mode, ms: seq<Measurement>)
    requires SingleKind(ms)
    ensures IgnoredCount(ms) == 0.0 && IgnoredSum(mode, ms) == 0.0
  {
    hide SumOf, Values.Sum, ObservedValues, SummedValues, SketchedValues;
    NoValues();
    EmptySums();
    NothingOfAnotherKind(ms);
  }

  lemma NoValues()
    ensures ObservedValues([]) == [] && SummedValues([]) == [] && SketchedValues([]) == []
    ensures Values.Sum([]) == 0.0
  {
  }

  lemma EmptySums()
    ensures SumOf([]) == 0
  {
  }

  lemma CollectedNothing(mode: Mode)
    ensures Collected(mode, []) == None
  {
  }

  lemma {:induction false} ObservedConcat(ms: seq<Measurement>, ns: seq<Measurement>)
    ensures ObservedValues(ms + ns) == ObservedValues(ms) + ObservedValues(ns)
  {
    if ns == [] {
      assert ms + ns == ms;
    } else {
      ObservedConcat(ms, ns[..|ns| - 1]);
      assert (ms + ns)[..|ms + ns| - 1] == ms + ns[..|ns| - 1];
    }
  }

  lemma {:induction false} SummedConcat(ms: seq<Measurement>, ns: seq<Measurement>)
    ensures SummedValues(ms + ns) == SummedValues(ms) + SummedValues(ns)
  {
    if ns == [] {
      assert ms + ns == ms;
    } else {
      SummedConcat(ms, ns[..|ns| - 1]);
      assert (ms + ns)[..|ms + ns| - 1] == ms + ns[..|ns| - 1];
    }
  }

  lemma {:induction false} SketchedConcat(ms: seq<Measurement>, ns: seq<Measurement>)
    ensures SketchedValues(ms + ns) == SketchedValues(ms) + SketchedValues(ns)
  {
    hide Distribution.RealValues;
    if ns == [] {
      assert ms + ns == ms;
    } else {
      SketchedConcat(ms, ns[..|ns| - 1]);
      assert (ms + ns)[..|ms + ns| - 1] == ms + ns[..|ns| - 1];
    }
  }

  lemma TotalsConcat(mode: Mode, ms: seq<Measurement>, ns: seq<Measurement>)
    ensures ValueCount(ms + ns) == ValueCount(ms) + ValueCount(ns)
    ensures ValueSum(mode, ms + ns) == ValueSum(mode, ms) + ValueSum(mode, ns)
  {
    hide SumOf, Values.Sum;
    ObservedConcat(ms, ns);
    SummedConcat(ms, ns);
    SketchedConcat(ms, ns);
    Values.SumOfConcat(SketchedValues(ms), SketchedValues(ns));
    SumOfConcat(ObservedValues(ms), ObservedValues(ns));
    SumOfConcat(SummedValues(ms), SummedValues(ns));
  }

  /** The group of one object: its measurement of that name, if it is for the key. With GroupConcat this says what a
      group is. */
  lemma GroupOfOne(r: Received, key: Key)
    ensures Group([r], key) ==
            if r.name == key.name && r.position == key.position && key.measurement in r.measurements
            then [r.measurements[key.measurement]] else []
  {
    GroupNext([], r, key);
    assert [] + [r] == [r];
  }

  /** The groups of two lists of objects follow each other. */
  lemma {:induction false} GroupConcat(rs: seq<Received>, qs: seq<Received>, key: Key)
    ensures Group(rs + qs, key) == Group(rs, key) + Group(qs, key)
  {
    hide Matching;
    if qs == [] {
      assert rs + qs == rs;
    } else {
      GroupConcat(rs, qs[..|qs| - 1], key);
      assert (rs + qs)[..|rs + qs| - 1] == rs + qs[..|qs| - 1];
    }
  }

  lemma SingleKindParts(ms: seq<Measurement>, ns: seq<Measurement>)
    requires SingleKind(ms + ns)
    ensures SingleKind(ms) && SingleKind(ns)
  {
    assert forall i :: 0 <= i < |ms| ==> ms[i] == (ms + ns)[i];
    assert forall i :: 0 <= i < |ns| ==> ns[i] == (ms + ns)[|ms| + i];
  }

  function BatchedCount(batches: seq<AggregatedMetrics>, key: Key): real {
    if batches == [] then 0.0 else
      BatchedCount(batches[..|batches| - 1], key) + CountOf(Lookup(batches[|batches| - 1], key))
  }

  function BatchedSum(batches: seq<AggregatedMetrics>, key: Key): real {
    if batches == [] then 0.0 else
      BatchedSum(batches[..|batches| - 1], key) + SumIn(Lookup(batches[|batches| - 1], key))
  }

  ghost predicate Batched(mode: Mode, batches: seq<AggregatedMetrics>, windows: seq<seq<Received>>) {
    |batches| == |windows| && forall i :: 0 <= i < |batches| ==> Groups(mode, batches[i], windows[i])
  }

  /** What is ignored in some windows. */
  function IgnoredCounts(windows: seq<seq<Received>>, key: Key): (n: real)
    ensures n >= 0.0
  {
    if windows == [] then 0.0 else
      IgnoredCounts(windows[..|windows| - 1], key) + IgnoredCount(Group(windows[|windows| - 1], key))
  }

  function IgnoredSums(mode: Mode, windows: seq<seq<Received>>, key: Key): real {
    if windows == [] then 0.0 else
      IgnoredSums(mode, windows[..|windows| - 1], key) + IgnoredSum(mode, Group(windows[|windows| - 1], key))
  }

  lemma {:induction false} BatchesTotal(
      mode: Mode, batches: seq<AggregatedMetrics>, windows: seq<seq<Received>>, key: Key)
    requires Batched(mode, batches, windows)
    ensures BatchedCount(batches, key) + IgnoredCounts(windows, key) == ValueCount(Group(Flat(windows), key))
    ensures BatchedSum(batches, key) + IgnoredSums(mode, windows, key) == ValueSum(mode, Group(Flat(windows), key))
  {
    hide Groups, ValueCount, ValueSum, Group, IgnoredCount, IgnoredSum;
    if windows == [] {
      NoTotals(mode, key);
    } else {
      var n := |windows| - 1;
      FlatNext(windows);
      GroupConcat(Flat(windows[..n]), windows[n], key);
      BatchesTotal(mode, batches[..n], windows[..n], key);
      WindowTotal(mode, batches[n], windows[n], key);
      TotalsConcat(mode, Group(Flat(windows[..n]), key), Group(windows[n], key));
    }
  }

  lemma NoTotals(mode: Mode, key: Key)
    ensures ValueCount(Group([], key)) == 0.0 && ValueSum(mode, Group([], key)) == 0.0
  {
    NoValues();
    EmptySums();
  }

  lemma WindowTotal(mode: Mode, metrics: AggregatedMetrics, rs: seq<Received>, key: Key)
    requires Groups(mode, metrics, rs)
    ensures CountOf(Lookup(metrics, key)) + IgnoredCount(Group(rs, key)) == ValueCount(Group(rs, key))
    ensures SumIn(Lookup(metrics, key)) + IgnoredSum(mode, Group(rs, key)) == ValueSum(mode, Group(rs, key))
  {
    EntryTotals(mode, Group(rs, key));
  }

  /** Over any run and for any key, what the batches and the rest count and sum, and what was ignored for its kind in
      each window, is together what was received. */
  lemma WindowsAccount(
      mode: Mode, ops: seq<Op>, batches: seq<AggregatedMetrics>, rest: AggregatedMetrics, key: Key)
    requires Batched(mode, batches, Run(ops).drained) && Groups(mode, rest, Run(ops).residual)
    ensures BatchedCount(batches, key) + CountOf(Lookup(rest, key))
            + IgnoredCounts(Run(ops).drained, key) + IgnoredCount(Group(Run(ops).residual, key))
            == ValueCount(Group(AllReceived(ops), key))
    ensures BatchedSum(batches, key) + SumIn(Lookup(rest, key))
            + IgnoredSums(mode, Run(ops).drained, key) + IgnoredSum(mode, Group(Run(ops).residual, key))
            == ValueSum(mode, Group(AllReceived(ops), key))
  {
    hide Groups, ValueCount, ValueSum, Group, Fold, IgnoredCount, IgnoredSum;
    var w := Run(ops);
    NothingLost(ops);
    GroupConcat(Flat(w.drained), w.residual, key);
    BatchesTotal(mode, batches, w.drained, key);
    WindowTotal(mode, rest, w.residual, key);
    TotalsConcat(mode, Group(Flat(w.drained), key), Group(w.residual, key));
  }

  /** No measurement with a value to count is ignored in a window. */
  predicate HeardIn(window: seq<Received>, key: Key) {
    IgnoredCount(Group(window, key)) == 0.0
  }

  lemma {:induction false} NoneIgnored(windows: seq<seq<Received>>, key: Key)
    ensures IgnoredCounts(windows, key) == 0.0 <==> forall i :: 0 <= i < |windows| ==> HeardIn(windows[i], key)
  {
    hide Group, IgnoredCount, HeardIn;
    if windows != [] {
      var n := |windows| - 1;
      var front := windows[..n];
      NoneIgnored(front, key);
      HeardIs(windows[n], key);
      assert forall i :: 0 <= i < n ==> front[i] == windows[i];
      assert windows == front + [windows[n]];
    }
  }

  lemma HeardIs(window: seq<Received>, key: Key)
    ensures HeardIn(window, key) <==> IgnoredCount(Group(window, key)) == 0.0
  {
    hide Group, IgnoredCount;
  }

  /** Over any run, the batches and the rest together count exactly the values received for a key if and only if no
      window ignored one for its kind. */
  lemma CountsConservedIffAllHeard(
      mode: Mode, ops: seq<Op>, batches: seq<AggregatedMetrics>, rest: AggregatedMetrics, key: Key)
    requires Batched(mode, batches, Run(ops).drained) && Groups(mode, rest, Run(ops).residual)
    ensures BatchedCount(batches, key) + CountOf(Lookup(rest, key)) == ValueCount(Group(AllReceived(ops), key))
            <==> HeardIn(Run(ops).residual, key)
                 && forall i :: 0 <= i < |Run(ops).drained| ==> HeardIn(Run(ops).drained[i], key)
  {
    hide Groups, ValueCount, ValueSum, Group, Fold, IgnoredCount, IgnoredSum, IgnoredCounts, Run;
    WindowsAccount(mode, ops, batches, rest, key);
    NoneIgnored(Run(ops).drained, key);
  }

  lemma {:induction false} NothingIgnored(mode: Mode, windows: seq<seq<Received>>, key: Key)
    requires SingleKind(Group(Flat(windows), key))
    ensures IgnoredCounts(windows, key) == 0.0 && IgnoredSums(mode, windows, key) == 0.0
  {
    hide Group, SingleKind, IgnoredCount, IgnoredSum;
    if windows != [] {
      var n := |windows| - 1;
      FlatNext(windows);
      GroupConcat(Flat(windows[..n]), windows[n], key);
      SingleKindParts(Group(Flat(windows[..n]), key), Group(windows[n], key));
      NothingIgnored(mode, windows[..n], key);
      SingleKindIgnoresNothing(mode, Group(windows[n], key));
    }
  }

  /** In particular, for a key that is used with one kind of measurement, counts and sums are conserved, in every
      mode. */
  lemma WindowsConserve(
      mode: Mode, ops: seq<Op>, batches: seq<AggregatedMetrics>, rest: AggregatedMetrics, key: Key)
    requires Batched(mode, batches, Run(ops).drained) && Groups(mode, rest, Run(ops).residual)
    requires SingleKind(Group(AllReceived(ops), key))
    ensures BatchedCount(batches, key) + CountOf(Lookup(rest, key)) == ValueCount(Group(AllReceived(ops), key))
    ensures BatchedSum(batches, key) + SumIn(Lookup(rest, key)) == ValueSum(mode, Group(AllReceived(ops), key))
  {
    hide Groups, ValueCount, ValueSum, SingleKind, Group, Fold, IgnoredCount, IgnoredSum, IgnoredCounts, IgnoredSums;
    var w := Run(ops);
    WindowsAccount(mode, ops, batches, rest, key);
    NothingLost(ops);
    GroupConcat(Flat(w.drained), w.residual, key);
    SingleKindParts(Group(Flat(w.drained), key), Group(w.residual, key));
    NothingIgnored(mode, w.drained, key);
    SingleKindIgnoresNothing(mode, Group(w.residual, key));
  }

  // ----- sketches and the order of arrival

  lemma {:induction false} SketchedIgnoresOrder(ms: seq<Measurement>, ns: seq<Measurement>)
    requires multiset(ms) == multiset(ns)
    ensures multiset(SketchedValues(ms)) == multiset(SketchedValues(ns))
    decreases |ms|
  {
    hide SketchedValues;
    if ms == [] {
      SameNothing(ns);
    } else {
      var front, m := ms[..|ms| - 1], ms[|ms| - 1];
      assert ms == front + [m];
      var before, after := TakeOut(m, front, ns);
      SketchedIgnoresOrder(front, before + after);
      SketchedConcat(front, [m]);
      SketchedConcat(before, after);
      SketchedConcat(before + [m], after);
      SketchedConcat(before, [m]);
    }
  }

  /** The same objects in another order give sketches of the same count, sum and extremes, though not of the same
      clusters. */
  lemma SketchTotalsIgnoreArrival(
      metrics: AggregatedMetrics, rs: seq<Received>, other: AggregatedMetrics, qs: seq<Received>, key: Key)
    requires Groups(TDigestMode, metrics, rs) && Groups(TDigestMode, other, qs)
    requires multiset(rs) == multiset(qs)
    requires Group(rs, key) != [] && forall i :: 0 <= i < |Group(rs, key)| ==> Group(rs, key)[i].Distributed?
    ensures Lookup(metrics, key).Some? && Lookup(metrics, key).value.TDigest?
    ensures Lookup(other, key).Some? && Lookup(other, key).value.TDigest?
    ensures var d := OnlineTdigests.Flushed(Lookup(metrics, key).value.digest).current;
      var e := OnlineTdigests.Flushed(Lookup(other, key).value.digest).current;
      d.count == e.count && d.sum == e.sum
      && (SketchedValues(Group(rs, key)) != [] ==> d.min == e.min && d.max == e.max)
  {
    hide Groups, Lookup, Group, SketchedValues, OnlineTdigests.Flushed, Sketch, Stats, SumOf, Tally;
    var ms, ns := Group(rs, key), Group(qs, key);
    GroupIgnoresOrder(rs, qs, key);
    SketchedIgnoresOrder(ms, ns);
    FirstIsDistributed(ms, ns);
    EntryContents(TDigestMode, metrics, rs, key);
    EntryContents(TDigestMode, other, qs, key);
    SketchesAgree(SketchedValues(ms), SketchedValues(ns));
  }

  lemma FirstIsDistributed(ms: seq<Measurement>, ns: seq<Measurement>)
    requires multiset(ms) == multiset(ns) && ms != [] && forall i :: 0 <= i < |ms| ==> ms[i].Distributed?
    ensures ns != [] && ns[0].Distributed?
  {
    assert |multiset(ms)| == |ms| && |multiset(ns)| == |ns|;
    assert ns[0] in multiset(ms);
  }

  lemma SketchesAgree(xs: seq<real>, ys: seq<real>)
    requires multiset(xs) == multiset(ys)
    ensures var d := OnlineTdigests.Flushed(Sketch(NO_SKETCH, xs)).current;
      var e := OnlineTdigests.Flushed(Sketch(NO_SKETCH, ys)).current;
      d.count == e.count && d.sum == e.sum && (xs != [] ==> d.min == e.min && d.max == e.max)
  {
    hide OnlineTdigests.StandsFor, OnlineTdigests.Flushed, Sketch, Partitions, Values.Sum, Values.MinOf, Values.MaxOf;
    SketchStandsFor(xs);
    SketchStandsFor(ys);
    SketchFlushed(Sketch(NO_SKETCH, xs), xs);
    SketchFlushed(Sketch(NO_SKETCH, ys), ys);
    SumIgnoresOrder(xs, ys);
    if xs != [] {
      TDigests.SameExtremes(xs, ys);
    }
  }
}
