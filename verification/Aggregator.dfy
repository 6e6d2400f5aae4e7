/** The aggregator (pipeline/aggregator.rs): a group-by over metric name, dimension position and measurement name. */
module Aggregators {
  import opened Aggregations
  import opened Folds
  import opened Options
  import opened StatisticSets
  import opened Types
  import Metrics

  type Measurements = map<Name, Aggregation>
  type Positions = map<DimensionPosition, Measurements>
  type AggregatedMetrics = map<Name, Positions>

  /** What one metrics object says once it is drained. */
  datatype Received = Received(name: Name, position: DimensionPosition, measurements: map<Name, Measurement>)

  datatype Key = Key(name: Name, position: DimensionPosition, measurement: Name)

  // ----- the specification: group, then collect

  function Matching(r: Received, key: Key): seq<Measurement> {
    if r.name == key.name && r.position == key.position && key.measurement in r.measurements
    then [r.measurements[key.measurement]] else []
  }

  /** The measurements of one key, in order of arrival. */
  function Group(rs: seq<Received>, key: Key): seq<Measurement> {
    if rs == [] then [] else Group(rs[..|rs| - 1], key) + Matching(rs[|rs| - 1], key)
  }

  predicate HasName(rs: seq<Received>, name: Name) {
    exists i :: 0 <= i < |rs| && rs[i].name == name
  }

  predicate HasPosition(rs: seq<Received>, name: Name, position: DimensionPosition) {
    exists i :: 0 <= i < |rs| && rs[i].name == name && rs[i].position == position
  }

  function Lookup(metrics: AggregatedMetrics, key: Key): Option<Aggregation> {
    if key.name in metrics && key.position in metrics[key.name]
       && key.measurement in metrics[key.name][key.position]
    then Some(metrics[key.name][key.position][key.measurement]) else None
  }

  /** The map is the group-by of what was received: it has a position exactly where something was received, and
      every key holds what its group is collected into. */
  ghost predicate Groups(mode: Mode, metrics: AggregatedMetrics, rs: seq<Received>) {
    && (forall name :: name in metrics <==> HasName(rs, name))
    && (forall name, position :: name in metrics && position in metrics[name] <==> HasPosition(rs, name, position))
    && (forall key :: Lookup(metrics, key) == Collected(mode, Group(rs, key)))
  }

  lemma HasNameNext(rs: seq<Received>, r: Received, name: Name)
    ensures HasName(rs + [r], name) <==> HasName(rs, name) || r.name == name
  {
    var all := rs + [r];
    assert all[|rs|] == r;
    if HasName(rs, name) {
      var i :| 0 <= i < |rs| && rs[i].name == name;
      assert all[i].name == name;
    }
  }

  lemma HasPositionNext(rs: seq<Received>, r: Received, name: Name, position: DimensionPosition)
    ensures HasPosition(rs + [r], name, position)
            <==> HasPosition(rs, name, position) || (r.name == name && r.position == position)
  {
    var all := rs + [r];
    assert all[|rs|] == r;
    if HasPosition(rs, name, position) {
      var i :| 0 <= i < |rs| && rs[i].name == name && rs[i].position == position;
      assert all[i].name == name && all[i].position == position;
    }
  }

  lemma GroupNext(rs: seq<Received>, r: Received, key: Key)
    ensures Group(rs + [r], key) == Group(rs, key) + Matching(r, key)
  {
    assert (rs + [r])[..|rs|] == rs;
  }

  lemma CollectedNext(mode: Mode, ms: seq<Measurement>, m: Measurement)
    ensures Collected(mode, ms + [m]) == Some(AbsorbInto(mode, Collected(mode, ms), m))
  {
    assert (ms + [m])[..|ms|] == ms;
  }

  // ----- the aggregator

  function Entry(measurements: Measurements, name: Name): Option<Aggregation> {
    if name in measurements then Some(measurements[name]) else None
  }

  /** A new name starts with statistics; any other aggregation of that name ignores the observation. */
  method AccumulateStatisticSet(measurements: Measurements, name: Name, observation: Observation, mode: Mode)
    returns (updated: Measurements)
    ensures updated == measurements[name := AbsorbInto(mode, Entry(measurements, name), Observed(observation))]
    ensures forall vs, v :: Summarized(Entry(measurements, name), vs) && MeasuresAs(observation, v)
              ==> Summarized(Entry(updated, name), vs + [v])
  {
    hide Summarized, MeasuresAs;
    forall vs, v | Summarized(Entry(measurements, name), vs) && MeasuresAs(observation, v)
      ensures Summarized(Some(AbsorbInto(mode, Entry(measurements, name), Observed(observation))), vs + [v])
    {
      SummarizedNext(mode, Entry(measurements, name), vs, observation, v);
    }
    updated := measurements;
    if name !in updated {
      updated := updated[name := Statistics(NO_VALUES)];
    }
    match updated[name] {
      case Statistics(s) => updated := updated[name := Statistics(Accumulate(s, observation.Value()))];
      case Histogram(_) =>
      case TDigest(_) =>
      case Exponential(_) =>
      case Sum(_) =>
    }
  }

  method AccumulateSum(measurements: Measurements, name: Name, value: int, mode: Mode)
    returns (updated: Measurements)
    ensures updated == measurements[name := AbsorbInto(mode, Entry(measurements, name), Summed(value))]
  {
    updated := measurements;
    if name !in updated {
      updated := updated[name := Sum(0)];
    }
    match updated[name] {
      case Statistics(_) =>
      case Histogram(_) =>
      case TDigest(_) =>
      case Exponential(_) =>
      case Sum(sum) => updated := updated[name := Sum(sum + value)];
    }
  }

  /** The three distribution accumulators differ in what a new name starts with; an existing distribution of any of
      the three kinds takes the values. */
  method AccumulateDistribution(measurements: Measurements, name: Name, distribution: Distribution, mode: Mode)
    returns (updated: Measurements)
    ensures updated == measurements[name := AbsorbInto(mode, Entry(measurements, name), Distributed(distribution))]
  {
    updated := measurements;
    if name !in updated {
      match mode {
        case HistogramMode => updated := updated[name := Aggregation.Histogram(map[])];
        case TDigestMode => updated := updated[name := TDigest(NO_SKETCH)];
        case ExponentialMode => updated := updated[name := Exponential([])];
      }
    }
    match updated[name] {
      case Statistics(_) =>
      case Histogram(counts) =>
        updated := updated[name := Aggregation.Histogram(Fold(Histograms.Record, counts, distribution.Values()))];
      case TDigest(digest) => updated := updated[name := TDigest(Sketch(digest, distribution.RealValues()))];
      case Exponential(absorbed) => updated := updated[name := Exponential(absorbed + [distribution])];
      case Sum(_) =>
    }
  }

  /** The entry of a name while some measurements are still left to be filed. */
  ghost function Filed(mode: Mode, start: Measurements, all: map<Name, Measurement>, left: map<Name, Measurement>, name: Name)
    : Option<Aggregation>
  {
    if name in all && name !in left then Some(AbsorbInto(mode, Entry(start, name), all[name])) else Entry(start, name)
  }

  /** One measurement, by its kind. */
  method AccumulateOne(mode: Mode, measurements: Measurements, name: Name, measurement: Measurement)
    returns (updated: Measurements)
    ensures updated == measurements[name := AbsorbInto(mode, Entry(measurements, name), measurement)]
  {
    hide AbsorbInto;
    match measurement {
      case Observed(observation) => updated := AccumulateStatisticSet(measurements, name, observation, mode);
      case Distributed(distribution) => updated := AccumulateDistribution(measurements, name, distribution, mode);
      case Summed(value) => updated := AccumulateSum(measurements, name, value, mode);
    }
  }

  /** Filing one of the names that are left. */
  lemma FiledNext(
      mode: Mode, start: Measurements, all: map<Name, Measurement>, left: map<Name, Measurement>,
      measurements: Measurements, name: Name, k: Name)
    requires left.Keys <= all.Keys && name in left
    requires Entry(measurements, k) == Filed(mode, start, all, left, k)
    requires Entry(measurements, name) == Filed(mode, start, all, left, name)
    ensures Entry(measurements[name := AbsorbInto(mode, Entry(measurements, name), all[name])], k)
            == Filed(mode, start, all, left - {name}, k)
  {
    hide AbsorbInto;
  }

  /** Takes the measurements out of the drained map in any order; each name is filed once. */
  method AccumulateAll(mode: Mode, drained: map<Name, Measurement>, start: Measurements) returns (updated: Measurements)
    ensures forall k :: Entry(updated, k) == Filed(mode, start, drained, map[], k)
  {
    hide AbsorbInto, Entry, Filed;
    var left := drained;
    updated := start;
    NothingFiled(mode, drained, start);
    while left != map[]
      invariant left.Keys <= drained.Keys && forall k :: k in left ==> left[k] == drained[k]
      invariant forall k :: Entry(updated, k) == Filed(mode, start, drained, left, k)
      decreases |left|
    {
      ghost var before := updated;
      var name :| name in left;
      updated := AccumulateOne(mode, updated, name, left[name]);
      forall k ensures Entry(updated, k) == Filed(mode, start, drained, left - {name}, k) {
        FiledNext(mode, start, drained, left, before, name, k);
      }
      left := left - {name};
    }
  }

  lemma NothingFiled(mode: Mode, all: map<Name, Measurement>, start: Measurements)
    ensures forall k :: Entry(start, k) == Filed(mode, start, all, all, k)
  {
    hide AbsorbInto;
  }

  function Existing(metrics: AggregatedMetrics, r: Received): Measurements {
    if r.name in metrics && r.position in metrics[r.name] then metrics[r.name][r.position] else map[]
  }

  function Placed(metrics: AggregatedMetrics, r: Received, measurements: Measurements): AggregatedMetrics {
    metrics[r.name := (if r.name in metrics then metrics[r.name] else map[])[r.position := measurements]]
  }

  /** Filing one more object keeps the map the group-by of what was received. */
  lemma FiledGroups(mode: Mode, metrics: AggregatedMetrics, rs: seq<Received>, r: Received, measurements: Measurements)
    requires Groups(mode, metrics, rs)
    requires forall k :: Entry(measurements, k) == Filed(mode, Existing(metrics, r), r.measurements, map[], k)
    ensures Groups(mode, Placed(metrics, r, measurements), rs + [r])
  {
    hide HasName, HasPosition, AbsorbInto, Collected, Group;
    var metrics' := Placed(metrics, r, measurements);
    forall name ensures name in metrics' <==> HasName(rs + [r], name) {
      HasNameNext(rs, r, name);
    }
    forall name, position
      ensures name in metrics' && position in metrics'[name] <==> HasPosition(rs + [r], name, position)
    {
      HasPositionNext(rs, r, name, position);
    }
    forall key ensures Lookup(metrics', key) == Collected(mode, Group(rs + [r], key)) {
      GroupNext(rs, r, key);
      assert Lookup(metrics, key) == Collected(mode, Group(rs, key));
      if key.name == r.name && key.position == r.position {
        assert Lookup(metrics', key) == Entry(measurements, key.measurement);
        assert Lookup(metrics, key) == Entry(Existing(metrics, r), key.measurement);
        if key.measurement in r.measurements {
          CollectedNext(mode, Group(rs, key), r.measurements[key.measurement]);
        }
      } else {
        assert Lookup(metrics', key) == Lookup(metrics, key);
      }
      assert Group(rs, key) + [] == Group(rs, key);
    }
  }

  lemma EmptyIffNothing(mode: Mode, metrics: AggregatedMetrics, rs: seq<Received>)
    requires Groups(mode, metrics, rs)
    ensures metrics == map[] <==> rs == []
    ensures Groups(mode, map[], [])
  {
    if rs != [] {
      assert HasName(rs, rs[0].name);
    } else {
      assert forall name :: name !in metrics;
    }
  }

  /** Takes the name, the effective dimensions and the measurements out of a metrics object. */
  method Take(sunk: Metrics.Metrics)
    returns (metricsName: Name, dimensions: DimensionPosition, measurements: map<Name, Measurement>)
    requires sunk.Valid()
    modifies sunk, sunk.Cells()
    ensures sunk.Valid()
    ensures metricsName == old(sunk.metricsName) && measurements == old(sunk.measurements)
    ensures Metrics.Effective(dimensions, old(sunk.dimensions), old(sunk.Overrides()), sunk.suppressed)
    ensures sunk.suppressed == old(sunk.suppressed)
    ensures sunk.dimensions == map[] && sunk.measurements == map[] && sunk.guards == []
    ensures sunk.metricsName == Metrics.UNINITIALIZED
  {
    metricsName := sunk.metricsName;
    sunk.metricsName := Metrics.UNINITIALIZED;
    sunk.Drain();
    dimensions, sunk.dimensions := sunk.dimensions, map[];
    measurements, sunk.measurements := sunk.measurements, map[];
  }

  /** Milliseconds between two polls. */
  const POLL_INTERVAL: nat := 5

  class Aggregator {
    const mode: Mode
    var metrics: AggregatedMetrics
    /** Scratch space for the key of a lookup; empty between calls. */
    var cachedPosition: DimensionPosition
    ghost var received: seq<Received>

    ghost predicate Valid()
      reads this
    {
      cachedPosition == map[] && Groups(mode, metrics, received)
    }

    constructor (mode: Mode)
      ensures Valid() && this.mode == mode && received == []
    {
      this.mode := mode;
      metrics, cachedPosition, received := map[], map[], [];
    }

    /** Files every measurement of the metrics object under its effective dimensions, and leaves the object drained. */
    method AggregateMetrics(sunk: Metrics.Metrics)
      requires Valid() && sunk.Valid()
      modifies this, sunk, sunk.Cells()
      ensures Valid() && sunk.Valid()
      ensures |received| == |old(received)| + 1 && received[..|old(received)|] == old(received)
      ensures var r := received[|old(received)|];
        && r.name == old(sunk.metricsName) && r.measurements == old(sunk.measurements)
        && Metrics.Effective(r.position, old(sunk.dimensions), old(sunk.Overrides()), old(sunk.suppressed))
      ensures sunk.dimensions == map[] && sunk.measurements == map[] && sunk.guards == []
      ensures sunk.metricsName == Metrics.UNINITIALIZED
    {
      hide Groups;
      var metricsName, dimensions, measurements := Take(sunk);
      File(Received(metricsName, dimensions, measurements));
    }

    /** The map update, once the metrics object is drained. */
    method File(r: Received)
      requires Valid()
      modifies this
      ensures Valid() && received == old(received) + [r]
    {
      hide Groups, Filed, Entry;
      ghost var before := metrics;
      if r.name !in metrics {
        metrics := metrics[r.name := map[]];
      }
      var positions := metrics[r.name];
      cachedPosition := cachedPosition + r.position;
      if cachedPosition !in positions {
        positions := positions[cachedPosition := map[]];
      }
      var position := cachedPosition;
      var measurements := positions[position];
      cachedPosition := map[];

      assert position == r.position && measurements == Existing(before, r);
      measurements := AccumulateAll(mode, r.measurements, measurements);
      metrics := metrics[r.name := positions[position := measurements]];
      FiledGroups(mode, before, received, r, measurements);
      ghost var base := if r.name in before then before[r.name] else map[];
      assert positions[position := measurements] == base[position := measurements];
      assert metrics == Placed(before, r, measurements);
      received := received + [r];
    }

    /** Polls the queue until something is there or the time is used up. The k-th poll finds polls(k); sleeping is
        only counted. At most one poll more than the whole sleeps that fit, and never a longer sleep than asked for. */
    method ReceiveOne(polls: nat -> Option<Received>, waitFor: nat)
      returns (more: bool, ghost polled: nat, ghost slept: nat)
      requires Valid()
      modifies this
      ensures Valid() && slept <= waitFor
      ensures forall k :: 0 <= k < polled ==> polls(k).None?
      ensures more ==> polls(polled).Some? && received == old(received) + [polls(polled).value]
      ensures !more ==> polls(polled).None? && received == old(received) && slept == waitFor
      ensures polled * 5 < waitFor + 5
    {
      hide Groups;
      polled, slept := 0, 0;
      var left: nat := waitFor;
      var k: nat := 0;
      while true
        invariant Valid() && received == old(received)
        invariant polled == k && slept + left == waitFor
        invariant if left > 0 then slept == k * POLL_INTERVAL else k * POLL_INTERVAL < waitFor + POLL_INTERVAL
        invariant forall j :: 0 <= j < k ==> polls(j).None?
        decreases left
      {
        match polls(k) {
          case Some(r) =>
            File(r);
            return true, polled, slept;
          case None =>
            var delay := if left < POLL_INTERVAL then left else POLL_INTERVAL;
            if delay == 0 {
              return false, polled, slept;
            }
            left := left - delay;
            slept, polled := slept + delay, polled + 1;
            k := k + 1;
        }
      }
    }

    /** Nothing if nothing was received, and otherwise what the batcher makes of everything since the last drain. The
        batcher says what stays; the map is the group-by of what was received again if that is nothing or everything. */
    method DrainInto<B>(batcher: AggregatedMetrics -> (B, AggregatedMetrics)) returns (batch: Option<B>)
      requires Valid()
      modifies this
      ensures batch.None? <==> old(received) == []
      ensures Groups(mode, old(metrics), old(received))
      ensures batch.None? ==> metrics == old(metrics)
      ensures batch.Some? ==> (batch.value, metrics) == batcher(old(metrics))
      ensures metrics == map[] ==> Valid() && received == []
      ensures metrics == old(metrics) ==> Valid() && received == old(received)
    {
      EmptyIffNothing(mode, metrics, received);
      if metrics == map[] {
        return None;
      }
      var (made, left) := batcher(metrics);
      batch := Some(made);
      received := if left == map[] then [] else received;
      metrics := left;
    }
  }
}
