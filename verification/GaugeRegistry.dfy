/** The registry of gauges (gauge_factory.rs, gauge_group.rs): weak references by group, dimensions and name, and
    shared handles that keep a gauge alive. Handles are used by one thread at a time here. */
module GaugeRegistry {
  import opened Aggregations
  import opened Aggregators
  import opened Options
  import opened StatisticSets
  import opened Types

  datatype Kind = StatisticKind | SumKind | HistogramKind

  /** The histogram of a histogram gauge lives in another crate: here it is the list of values it was given. */
  datatype Gauge = StatisticGauge(held: StatisticSet) | SumGauge(sum: int) | HistogramGauge(values: seq<int>) {
    function Kind(): Kind {
      match this
      case StatisticGauge(_) => StatisticKind
      case SumGauge(_) => SumKind
      case HistogramGauge(_) => HistogramKind
    }
  }

  /** A gauge on the heap with the number of handles to it; it is gone when the last handle is. */
  datatype Counted = Counted(strong: nat, gauge: Gauge)

  type Ref = nat
  type Group = map<DimensionPosition, map<Name, Ref>>

  function NewGauge(kind: Kind): Gauge {
    match kind
    case StatisticKind => StatisticGauge(NO_VALUES)
    case SumKind => SumGauge(0)
    case HistogramKind => HistogramGauge([])
  }

  function ObserveGauge(gauge: Gauge, v: int): Gauge {
    match gauge
    case StatisticGauge(held) => StatisticGauge(Accumulate(held, v))
    case SumGauge(sum) => SumGauge(sum + v)
    case HistogramGauge(values) => HistogramGauge(values + [v])
  }

  /** What reset returns. */
  function Reading(gauge: Gauge): Option<Aggregation> {
    match gauge
    case StatisticGauge(held) => if held.count == 0 then None else Some(Statistics(held))
    case SumGauge(sum) => if sum == 0 then None else Some(Sum(sum))
    case HistogramGauge(values) => if values == [] then None else Some(Exponential([Collection(values)]))
  }

  /** What reset leaves. */
  function Zeroed(gauge: Gauge): Gauge {
    match gauge
    case StatisticGauge(held) => if held.count == 0 then gauge else StatisticGauge(NO_VALUES)
    case SumGauge(_) => SumGauge(0)
    case HistogramGauge(_) => HistogramGauge([])
  }

  // ----- the specification: what a key is, as seen through its handles

  /** A gauge with handles, and what was observed through them since the last report. */
  datatype Live = Live(kind: Kind, handles: nat, seen: seq<int>)

  datatype Op =
    | Acquire(key: Key, kind: Kind) | Clone(key: Key) | Release(key: Key)
    | Observe(key: Key, kind: Kind, v: int) | Report

  /** What a call does to one key. */
  function Next(live: Option<Live>, key: Key, op: Op): Option<Live> {
    match op
    case Acquire(k, kind) =>
      if k != key then live
      else if live.None? then Some(Live(kind, 1, []))
      else Some(live.value.(handles := live.value.handles + 1))
    case Clone(k) =>
      if k != key || live.None? then live else Some(live.value.(handles := live.value.handles + 1))
    case Release(k) =>
      if k != key || live.None? then live
      else if live.value.handles <= 1 then None
      else Some(live.value.(handles := live.value.handles - 1))
    case Observe(k, kind, v) =>
      if k != key || live.None? || live.value.kind != kind then live
      else Some(live.value.(seen := live.value.seen + [v]))
    case Report => if live.None? then None else Some(live.value.(seen := []))
  }

  /** The entry says what was observed, in the form of the kind of gauge; of nothing to say there is no entry. */
  predicate Tells(entry: Option<Aggregation>, kind: Kind, seen: seq<int>) {
    match kind
    case StatisticKind =>
      if seen == [] then entry == None
      else entry.Some? && entry.value.Statistics? && Summary(entry.value.statistics, seen)
    case SumKind => if SumOf(seen) == 0 then entry == None else entry == Some(Sum(SumOf(seen)))
    case HistogramKind => if seen == [] then entry == None else entry == Some(Exponential([Collection(seen)]))
  }

  /** The entry of a report for a key: none without handles, and otherwise what was observed through them. */
  predicate Says(entry: Option<Aggregation>, live: Option<Live>) {
    if live.None? then entry == None else Tells(entry, live.value.kind, live.value.seen)
  }

  predicate Holds(gauge: Gauge, seen: seq<int>) {
    match gauge
    case StatisticGauge(held) => held == Stats(seen)
    case SumGauge(sum) => sum == SumOf(seen)
    case HistogramGauge(values) => values == seen
  }

  lemma HoldsNothing(kind: Kind)
    ensures Holds(NewGauge(kind), [])
  {
  }

  lemma HoldsNext(gauge: Gauge, seen: seq<int>, v: int)
    requires Holds(gauge, seen)
    ensures Holds(ObserveGauge(gauge, v), seen + [v])
  {
    StatsNext(seen, v);
    SumNext(seen, v);
  }

  lemma HoldsZeroed(gauge: Gauge, seen: seq<int>)
    requires Holds(gauge, seen)
    ensures Holds(Zeroed(gauge), []) && Zeroed(gauge).Kind() == gauge.Kind()
    ensures Tells(Reading(gauge), gauge.Kind(), seen)
  {
    StatsTotals(seen);
    StatsAreSummary(seen);
    hide Summary, SumOf, Stats;
    HoldsNothing(gauge.Kind());
  }

  // ----- the registry

  function RefIn(groups: map<Name, Group>, key: Key): Option<Ref> {
    if key.name in groups && key.position in groups[key.name] && key.measurement in groups[key.name][key.position]
    then Some(groups[key.name][key.position][key.measurement]) else None
  }

  /** No dimension position without gauges. */
  predicate Occupied(groups: map<Name, Group>) {
    forall name, position :: name in groups && position in groups[name] ==> groups[name][position] != map[]
  }

  /** The registry with what its gauges were made for and what they observed. */
  datatype Store = Store(
    groups: map<Name, Group>, memory: map<Ref, Counted>, nextRef: Ref, origin: map<Ref, Key>, seen: map<Ref, seq<int>>)

  /** A gauge with a handle is registered under its own key. */
  predicate Sound(s: Store, r: Ref) {
    && r < s.nextRef && r in s.memory && r in s.origin && r in s.seen
    && s.memory[r].strong >= 1 && Holds(s.memory[r].gauge, s.seen[r])
    && RefIn(s.groups, s.origin[r]) == Some(r)
  }

  /** Nothing but a gauge made for the key is registered under it. */
  predicate Proper(s: Store, key: Key) {
    match RefIn(s.groups, key)
    case None => true
    case Some(r) => r < s.nextRef && r in s.origin && s.origin[r] == key
  }

  ghost predicate Sane(s: Store) {
    && (forall r :: r in s.memory ==> Sound(s, r))
    && (forall key :: Proper(s, key))
    && Occupied(s.groups)
  }

  function LiveIn(s: Store, key: Key): Option<Live> {
    match RefIn(s.groups, key)
    case None => None
    case Some(r) =>
      if r in s.memory && r in s.seen
      then Some(Live(s.memory[r].gauge.Kind(), s.memory[r].strong, s.seen[r])) else None
  }

  /** All handles of a key share one gauge. */
  lemma OneGaugePerKey(s: Store, r: Ref, q: Ref)
    requires Sane(s) && r in s.memory && q in s.memory && s.origin[r] == s.origin[q]
    ensures r == q
  {
    assert Sound(s, r) && Sound(s, q);
  }

  /** Changing one gauge changes its key and no other. */
  lemma Changed(s: Store, r: Ref, counted: Counted, vs: seq<int>)
    requires Sane(s) && r in s.memory && counted.strong >= 1 && Holds(counted.gauge, vs)
    ensures var s' := s.(memory := s.memory[r := counted], seen := s.seen[r := vs]);
      && Sane(s') && LiveIn(s', s.origin[r]) == Some(Live(counted.gauge.Kind(), counted.strong, vs))
      && forall k :: k != s.origin[r] ==> LiveIn(s', k) == LiveIn(s, k)
  {
    hide Holds, RefIn;
    var s' := s.(memory := s.memory[r := counted], seen := s.seen[r := vs]);
    assert Sound(s, r);
    forall q | q in s'.memory ensures Sound(s', q) {
      assert Sound(s, q);
    }
    forall key ensures Proper(s', key) {
      assert Proper(s, key);
    }
    forall k | k != s.origin[r] ensures LiveIn(s', k) == LiveIn(s, k) {
      assert Proper(s, k);
    }
  }

  lemma Dropped(s: Store, r: Ref)
    requires Sane(s) && r in s.memory
    ensures var s' := s.(memory := s.memory - {r});
      && Sane(s') && LiveIn(s', s.origin[r]) == None
      && forall k :: k != s.origin[r] ==> LiveIn(s', k) == LiveIn(s, k)
  {
    hide Holds, RefIn;
    var s' := s.(memory := s.memory - {r});
    assert Sound(s, r);
    forall q | q in s'.memory ensures Sound(s', q) {
      assert Sound(s, q);
    }
    forall key ensures Proper(s', key) {
      assert Proper(s, key);
    }
    forall k | k != s.origin[r] ensures LiveIn(s', k) == LiveIn(s, k) {
      assert Proper(s, k);
    }
  }

  function Registered(groups: map<Name, Group>, key: Key, r: Ref): map<Name, Group> {
    var group: Group := if key.name in groups then groups[key.name] else map[];
    var gauges: map<Name, Ref> := if key.position in group then group[key.position] else map[];
    groups[key.name := group[key.position := gauges[key.measurement := r]]]
  }

  lemma RegisteredIs(groups: map<Name, Group>, key: Key, r: Ref)
    ensures RefIn(Registered(groups, key, r), key) == Some(r)
    ensures forall k :: k != key ==> RefIn(Registered(groups, key, r), k) == RefIn(groups, k)
    ensures Occupied(groups) ==> Occupied(Registered(groups, key, r))
  {
    var all := Registered(groups, key, r);
    assert key.measurement in all[key.name][key.position];
  }

  lemma Added(s: Store, key: Key, kind: Kind)
    requires Sane(s) && LiveIn(s, key) == None
    ensures var r := s.nextRef;
      var s' := Store(Registered(s.groups, key, r), s.memory[r := Counted(1, NewGauge(kind))], r + 1,
                      s.origin[r := key], s.seen[r := []]);
      && Sane(s') && LiveIn(s', key) == Some(Live(kind, 1, []))
      && forall k :: k != key ==> LiveIn(s', k) == LiveIn(s, k)
  {
    hide Holds, RefIn, Registered, Occupied;
    var r := s.nextRef;
    var s' := Store(Registered(s.groups, key, r), s.memory[r := Counted(1, NewGauge(kind))], r + 1,
                    s.origin[r := key], s.seen[r := []]);
    HoldsNothing(kind);
    RegisteredIs(s.groups, key, r);
    forall q | q in s'.memory ensures Sound(s', q) {
      if q != r {
        assert Sound(s, q);
        assert s.origin[q] != key;
      }
    }
    forall k ensures Proper(s', k) {
      assert Proper(s, k);
    }
    forall k | k != key ensures LiveIn(s', k) == LiveIn(s, k) {
      assert Proper(s, k);
    }
  }

  // ----- the parts of reset

  function PrunedGroups(groups: map<Name, Group>, memory: map<Ref, Counted>): map<Name, Group> {
    map name | name in groups :: Pruned(groups[name], memory)
  }

  function AllReadings(groups: map<Name, Group>, memory: map<Ref, Counted>): AggregatedMetrics {
    map name | name in groups && GroupReadings(groups[name], memory) != map[] :: GroupReadings(groups[name], memory)
  }

  function Visited(groups: map<Name, Group>): set<Ref> {
    set name, position, measurement | name in groups && position in groups[name]
      && measurement in groups[name][position] :: groups[name][position][measurement]
  }

  function AllZeroed(groups: map<Name, Group>, memory: map<Ref, Counted>): map<Ref, Counted> {
    map r | r in memory :: if r in Visited(groups) then memory[r].(gauge := Zeroed(memory[r].gauge)) else memory[r]
  }

  /** The gauges that a handle keeps alive. */
  function Alive(gauges: map<Name, Ref>, memory: map<Ref, Counted>): map<Name, Ref> {
    map name | name in gauges && gauges[name] in memory :: gauges[name]
  }

  function Pruned(group: Group, memory: map<Ref, Counted>): Group {
    map position | position in group && Alive(group[position], memory) != map[] :: Alive(group[position], memory)
  }

  function Readings(gauges: map<Name, Ref>, memory: map<Ref, Counted>): Measurements {
    map name | name in gauges && gauges[name] in memory && Reading(memory[gauges[name]].gauge).Some?
      :: Reading(memory[gauges[name]].gauge).value
  }

  function GroupReadings(group: Group, memory: map<Ref, Counted>): Positions {
    map position | position in group && Readings(group[position], memory) != map[] :: Readings(group[position], memory)
  }

  lemma PrunedRefs(groups: map<Name, Group>, memory: map<Ref, Counted>, key: Key)
    ensures var pruned := PrunedGroups(groups, memory);
      RefIn(pruned, key) == match RefIn(groups, key)
                            case None => None
                            case Some(r) => if r in memory then Some(r) else None
    ensures Occupied(PrunedGroups(groups, memory))
  {
    var r := RefIn(groups, key);
    if r.Some? && r.value in memory {
      assert key.measurement in Alive(groups[key.name][key.position], memory);
    }
  }

  lemma ReportRefs(groups: map<Name, Group>, memory: map<Ref, Counted>, key: Key)
    ensures Lookup(AllReadings(groups, memory), key) ==
      match RefIn(groups, key)
      case None => None
      case Some(r) => if r in memory then Reading(memory[r].gauge) else None
  {
    hide Reading;
    var r := RefIn(groups, key);
    if r.Some? && r.value in memory && Reading(memory[r.value].gauge).Some? {
      assert key.measurement in Readings(groups[key.name][key.position], memory);
      assert key.position in GroupReadings(groups[key.name], memory);
    }
  }

  function AfterReport(s: Store): Store {
    s.(groups := PrunedGroups(s.groups, s.memory),
       memory := AllZeroed(PrunedGroups(s.groups, s.memory), s.memory),
       seen := map r | r in s.seen :: [])
  }

  /** A report says of each key what its handles observed, forgets it, and removes exactly the dead entries. */
  lemma AfterReportIs(s: Store, key: Key)
    requires Sane(s)
    ensures LiveIn(AfterReport(s), key) == Next(LiveIn(s, key), key, Report)
    ensures Says(Lookup(AllReadings(PrunedGroups(s.groups, s.memory), s.memory), key), LiveIn(s, key))
    ensures RefIn(AfterReport(s).groups, key) == if LiveIn(s, key).Some? then RefIn(s.groups, key) else None
  {
    hide Reading, Zeroed, Holds, PrunedGroups, AllReadings, RefIn, Tells;
    var pruned := PrunedGroups(s.groups, s.memory);
    PrunedRefs(s.groups, s.memory, key);
    ReportRefs(pruned, s.memory, key);
    var r := RefIn(s.groups, key);
    if r.Some? && r.value in s.memory {
      assert Sound(s, r.value);
      HoldsZeroed(s.memory[r.value].gauge, s.seen[r.value]);
      VisitedIs(pruned, key, r.value);
    }
  }

  lemma VisitedIs(groups: map<Name, Group>, key: Key, r: Ref)
    requires RefIn(groups, key) == Some(r)
    ensures r in Visited(groups)
  {
  }

  lemma AfterReportSane(s: Store)
    requires Sane(s)
    ensures Sane(AfterReport(s))
  {
    hide Zeroed, Holds, PrunedGroups, RefIn, Occupied;
    var s' := AfterReport(s);
    forall key ensures Proper(s', key) {
      assert Proper(s, key);
      PrunedRefs(s.groups, s.memory, key);
    }
    PrunedRefs(s.groups, s.memory, Key(Str(""), map[], Str("")));
    forall r | r in s'.memory ensures Sound(s', r) {
      assert Sound(s, r);
      PrunedRefs(s.groups, s.memory, s.origin[r]);
      VisitedIs(s'.groups, s.origin[r], r);
      HoldsZeroed(s.memory[r].gauge, s.seen[r]);
    }
  }

  // ----- the factory

  class GaugeFactory {
    var groups: map<Name, Group>
    var memory: map<Ref, Counted>
    var nextRef: Ref
    /** The key a gauge was made for, and what it observed since the last report. */
    ghost var origin: map<Ref, Key>
    ghost var seen: map<Ref, seq<int>>

    ghost function View(): Store
      reads this
    {
      Store(groups, memory, nextRef, origin, seen)
    }

    ghost predicate Valid()
      reads this
    {
      Sane(View())
    }

    ghost predicate IsHandle(r: Ref, key: Key)
      reads this
    {
      r in memory && r in origin && origin[r] == key
    }

    ghost function LiveAt(key: Key): Option<Live>
      reads this
    {
      LiveIn(View(), key)
    }

    constructor ()
      ensures Valid() && memory == map[] && forall key :: LiveAt(key) == None
    {
      groups, memory, nextRef, origin, seen := map[], map[], 0, map[], map[];
    }

    /** The gauge of a key: the one its handles share if there is any, and a new one otherwise. */
    method GetGauge(key: Key, kind: Kind) returns (r: Ref)
      requires Valid()
      modifies this
      ensures Valid() && IsHandle(r, key)
      ensures forall k :: LiveAt(k) == Next(old(LiveAt(k)), k, Acquire(key, kind))
      ensures forall q, k :: old(IsHandle(q, k)) ==> IsHandle(q, k) && (k == key ==> r == q)
    {
      hide Sane, Holds, LiveIn;
      if key.name in groups && key.position in groups[key.name] && key.measurement in groups[key.name][key.position]
         && groups[key.name][key.position][key.measurement] in memory {
        r := groups[key.name][key.position][key.measurement];
        hide RefIn;
        FoundGauge(View(), key, r);
        Changed(View(), r, memory[r].(strong := memory[r].strong + 1), seen[r]);
        ghost var before := View();
        memory := memory[r := memory[r].(strong := memory[r].strong + 1)];
        assert seen == seen[r := seen[r]];
        forall q, k | old(IsHandle(q, k)) ensures IsHandle(q, k) && (k == key ==> r == q) {
          if k == key {
            OneGaugePerKey(before, r, q);
          }
        }
      } else {
        MissingGauge(View(), key);
        r := AddGauge(key, kind);
      }
    }

    /** Registers a new gauge, in place of a dead one if there is one. */
    method AddGauge(key: Key, kind: Kind) returns (r: Ref)
      requires Valid() && LiveAt(key) == None
      requires forall q :: q in memory ==> q != nextRef && q in origin && origin[q] != key
      modifies this
      ensures Valid() && IsHandle(r, key)
      ensures LiveAt(key) == Some(Live(kind, 1, [])) && forall k :: k != key ==> LiveAt(k) == old(LiveAt(k))
      ensures forall q, k :: old(IsHandle(q, k)) ==> IsHandle(q, k) && k != key
    {
      hide Sane, Holds, LiveIn, RefIn, Registered, NewGauge;
      Added(View(), key, kind);
      r := nextRef;
      nextRef := nextRef + 1;
      memory := memory[r := Counted(1, NewGauge(kind))];
      groups := Registered(groups, key, r);
      origin := origin[r := key];
      seen := seen[r := []];
    }

    method CloneHandle(r: Ref, ghost key: Key)
      requires Valid() && IsHandle(r, key)
      modifies this
      ensures Valid() && origin == old(origin)
      ensures memory == old(memory)[r := old(memory[r]).(strong := old(memory[r].strong) + 1)]
      ensures forall k :: LiveAt(k) == Next(old(LiveAt(k)), k, Clone(key))
    {
      hide Sane, Holds, RefIn, LiveIn;
      HandleIsLive(View(), r);
      Changed(View(), r, memory[r].(strong := memory[r].strong + 1), seen[r]);
      memory := memory[r := memory[r].(strong := memory[r].strong + 1)];
      assert seen == seen[r := seen[r]];
    }

    /** With the last handle the gauge is gone, and so is what it had not reported. */
    method DropHandle(r: Ref, ghost key: Key)
      requires Valid() && IsHandle(r, key)
      modifies this
      ensures Valid() && origin == old(origin)
      ensures memory == if old(memory[r].strong) == 1 then old(memory) - {r} else
                          old(memory)[r := old(memory[r]).(strong := old(memory[r].strong) - 1)]
      ensures forall k :: LiveAt(k) == Next(old(LiveAt(k)), k, Release(key))
    {
      hide Sane, Holds, RefIn, LiveIn;
      HandleIsLive(View(), r);
      if memory[r].strong == 1 {
        Dropped(View(), r);
        memory := memory - {r};
      } else {
        Changed(View(), r, memory[r].(strong := memory[r].strong - 1), seen[r]);
        memory := memory[r := memory[r].(strong := memory[r].strong - 1)];
        assert seen == seen[r := seen[r]];
      }
    }

    /** A handle of the wrong kind observes nothing. */
    method ObserveThrough(r: Ref, kind: Kind, v: int, ghost key: Key)
      requires Valid() && IsHandle(r, key)
      modifies this
      ensures Valid() && memory.Keys == old(memory.Keys) && origin == old(origin)
      ensures forall k :: LiveAt(k) == Next(old(LiveAt(k)), k, Observe(key, kind, v))
    {
      hide Sane, Holds, RefIn, LiveIn;
      HandleIsLive(View(), r);
      if memory[r].gauge.Kind() == kind {
        HoldsNext(memory[r].gauge, seen[r], v);
        Changed(View(), r, memory[r].(gauge := ObserveGauge(memory[r].gauge, v)), seen[r] + [v]);
        memory := memory[r := memory[r].(gauge := ObserveGauge(memory[r].gauge, v))];
        seen := seen[r := seen[r] + [v]];
      }
    }

    /** Removes the entries whose gauge is gone, and no others, then reads and zeroes every gauge that is left. */
    method AggregateAndReset() returns (report: AggregatedMetrics)
      requires Valid()
      modifies this
      ensures Valid() && memory.Keys == old(memory.Keys) && origin == old(origin)
      ensures forall k :: Says(Lookup(report, k), old(LiveAt(k)))
      ensures forall k :: LiveAt(k) == Next(old(LiveAt(k)), k, Report)
      ensures forall k :: RefIn(groups, k) == if old(LiveAt(k)).Some? then old(RefIn(groups, k)) else None
      ensures Occupied(groups)
      ensures forall name :: name in report ==> report[name] != map[]
      ensures forall name, position :: name in report && position in report[name] ==> report[name][position] != map[]
    {
      ghost var before := View();
      groups := PrunedGroups(groups, memory);
      report := AllReadings(groups, memory);
      memory := AllZeroed(groups, memory);
      seen := map r | r in seen :: [];
      hide Sane, LiveIn, RefIn, Lookup, PrunedGroups, AllReadings, AllZeroed, Says, Next;
      forall key {
        AfterReportIs(before, key);
      }
      AfterReportSane(before);
    }
  }

  lemma FoundGauge(s: Store, key: Key, r: Ref)
    requires Sane(s) && RefIn(s.groups, key) == Some(r) && r in s.memory
    ensures Sound(s, r) && s.origin[r] == key
    ensures LiveIn(s, key) == Some(Live(s.memory[r].gauge.Kind(), s.memory[r].strong, s.seen[r]))
  {
    assert Sound(s, r);
    assert Proper(s, key);
  }

  lemma MissingGauge(s: Store, key: Key)
    requires Sane(s)
    requires RefIn(s.groups, key).Some? ==> RefIn(s.groups, key).value !in s.memory
    ensures LiveIn(s, key) == None
    ensures forall q :: q in s.memory ==> q != s.nextRef && q in s.origin && s.origin[q] != key
  {
    forall q | q in s.memory ensures q != s.nextRef && q in s.origin && s.origin[q] != key {
      assert Sound(s, q);
    }
  }

  lemma HandleIsLive(s: Store, r: Ref)
    requires Sane(s) && r in s.memory
    ensures Sound(s, r)
    ensures LiveIn(s, s.origin[r]) == Some(Live(s.memory[r].gauge.Kind(), s.memory[r].strong, s.seen[r]))
  {
    assert Sound(s, r);
  }

  // ----- whole runs of a factory

  /** Where the observations between two reports went: shown in a report, or lost with the last handle. */
  datatype Piece = Shown(vs: seq<int>, kind: Kind, report: nat) | Lost(vs: seq<int>)

  function LiveAfter(ops: seq<Op>, key: Key): Option<Live>
    decreases |ops|
  {
    if ops == [] then None else Next(LiveAfter(ops[..|ops| - 1], key), key, ops[|ops| - 1])
  }

  /** How many reports a run makes. */
  function ReportCount(ops: seq<Op>): nat
    decreases |ops|
  {
    if ops == [] then 0 else ReportCount(ops[..|ops| - 1]) + (if ops[|ops| - 1].Report? then 1 else 0)
  }

  /** Each report says of the key what was observed through its handles just before. */
  ghost predicate ReportsSay(reports: seq<AggregatedMetrics>, ops: seq<Op>, key: Key) {
    && |reports| == ReportCount(ops)
    && forall k: nat :: k < |ops| ==> ReportSays(reports, ops, key, k)
  }

  predicate ReportSays(reports: seq<AggregatedMetrics>, ops: seq<Op>, key: Key, k: nat)
    requires k < |ops|
  {
    ops[k].Report? ==>
      var i := ReportCount(ops[..k]);
      i < |reports| && Says(Lookup(reports[i], key), LiveAfter(ops[..k], key))
  }

  /** The gauge of a key, if it has handles. */
  function HandleOf(groups: map<Name, Group>, memory: map<Ref, Counted>, key: Key): Option<Ref> {
    match RefIn(groups, key)
    case None => None
    case Some(r) => if r in memory then Some(r) else None
  }

  lemma HandleIsFound(s: Store, key: Key)
    requires Sane(s)
    ensures var r := HandleOf(s.groups, s.memory, key);
      && (r.None? <==> LiveIn(s, key).None?)
      && (r.Some? ==> r.value in s.memory && r.value in s.origin && s.origin[r.value] == key)
  {
    var r := HandleOf(s.groups, s.memory, key);
    if r.Some? {
      FoundGauge(s, key, r.value);
    }
  }

  /** One call on a factory, through a handle of the key if it takes one; without a handle there is nothing to call. */
  method Call(factory: GaugeFactory, op: Op) returns (report: Option<AggregatedMetrics>)
    requires factory.Valid()
    modifies factory
    ensures factory.Valid() && forall k :: factory.LiveAt(k) == Next(old(factory.LiveAt(k)), k, op)
    ensures report.Some? <==> op.Report?
    ensures op.Report? ==> forall k :: Says(Lookup(report.value, k), old(factory.LiveAt(k)))
  {
    hide Sane, RefIn, LiveIn, Says, Lookup;
    report := None;
    if op.Report? {
      var metrics := factory.AggregateAndReset();
      report := Some(metrics);
    } else if op.Acquire? {
      var r := factory.GetGauge(op.key, op.kind);
    } else {
      HandleIsFound(factory.View(), op.key);
      var r := HandleOf(factory.groups, factory.memory, op.key);
      if r.Some? {
        match op {
          case Clone(key) => factory.CloneHandle(r.value, key);
          case Release(key) => factory.DropHandle(r.value, key);
          case Observe(key, kind, v) => factory.ObserveThrough(r.value, kind, v, key);
        }
      }
    }
  }

  /** A factory goes through any run of calls as each of its keys does, and its reports say of every key what was
      observed through its handles since the report before. */
  method Perform(factory: GaugeFactory, ops: seq<Op>) returns (reports: seq<AggregatedMetrics>)
    requires factory.Valid() && forall key :: factory.LiveAt(key) == None
    modifies factory
    ensures factory.Valid() && forall key :: factory.LiveAt(key) == LiveAfter(ops, key)
    ensures forall key :: ReportsSay(reports, ops, key)
  {
    hide Sane, RefIn, LiveIn, Says, Lookup, Next;
    reports := [];
    for n := 0 to |ops|
      invariant factory.Valid() && forall key :: factory.LiveAt(key) == LiveAfter(ops[..n], key)
      invariant forall key :: ReportsSay(reports, ops[..n], key)
    {
      ghost var before := reports;
      var report := Call(factory, ops[n]);
      if report.Some? {
        reports := reports + [report.value];
      }
      assert ops[..n + 1][..n] == ops[..n] && ops[..n + 1][n] == ops[n];
      ghost var done := ops[..n + 1];
      assert done == ops[..n] + [ops[n]];
      forall key ensures ReportsSay(reports, done, key) {
        assert ReportsSay(before, ops[..n], key);
        ReportsSayNext(before, reports, ops[..n], ops[n], key);
      }
    }
    assert ops[..|ops|] == ops;
  }

  lemma ReportsSayNext(
      before: seq<AggregatedMetrics>, reports: seq<AggregatedMetrics>, ops: seq<Op>, op: Op, key: Key)
    requires ReportsSay(before, ops, key)
    requires if op.Report? then |reports| == |before| + 1 && reports[..|before|] == before
                                && Says(Lookup(reports[|before|], key), LiveAfter(ops, key))
             else reports == before
    ensures ReportsSay(reports, ops + [op], key)
  {
    hide Says, Lookup, Next;
    var all, n := ops + [op], |ops|;
    assert all[..n] == ops;
    forall k: nat | k <= n ensures ReportSays(reports, all, key, k) {
      assert all[..k] == ops[..k];
      if k < n {
        assert ReportSays(before, ops, key, k);
        if op.Report? && ops[k].Report? {
          assert reports[..|before|][ReportCount(ops[..k])] == reports[ReportCount(ops[..k])];
        }
      } else {
        assert ops[..n] == ops;
      }
    }
  }

  // ----- whole runs, one key at a time

  /** The handles of a key, counted: every one that is handed out or cloned from another, less those given back. */
  function Handles(ops: seq<Op>, key: Key): nat
    decreases |ops|
  {
    if ops == [] then 0 else
      var held := Handles(ops[..|ops| - 1], key);
      match ops[|ops| - 1]
      case Acquire(k, _) => if k == key then held + 1 else held
      case Clone(k) => if k == key && held > 0 then held + 1 else held
      case Release(k) => if k == key && held > 0 then held - 1 else held
      case Observe(_, _, _) => held
      case Report => held
  }

  /** A key is live exactly while it has handles, and reports do not change that. */
  lemma {:induction false} HandlesCounted(ops: seq<Op>, key: Key)
    ensures match LiveAfter(ops, key)
      case None => Handles(ops, key) == 0
      case Some(live) => live.handles == Handles(ops, key) > 0
    decreases |ops|
  {
    if ops != [] {
      HandlesCounted(ops[..|ops| - 1], key);
    }
  }

  function AcceptedBy(live: Option<Live>, key: Key, op: Op): seq<int> {
    if op.Observe? && op.key == key && live.Some? && live.value.kind == op.kind then [op.v] else []
  }

  /** A report shows a live key; the last release of a key loses what it had. */
  function PieceOf(live: Option<Live>, key: Key, op: Op, report: nat): seq<Piece> {
    if live.Some? && op.Report? then [Shown(live.value.seen, live.value.kind, report)]
    else if live.Some? && Next(live, key, op).None? then [Lost(live.value.seen)]
    else []
  }

  /** What was observed through handles of the key. */
  function Accepted(ops: seq<Op>, key: Key): seq<int>
    decreases |ops|
  {
    if ops == [] then [] else
      Accepted(ops[..|ops| - 1], key) + AcceptedBy(LiveAfter(ops[..|ops| - 1], key), key, ops[|ops| - 1])
  }

  function Pieces(ops: seq<Op>, key: Key): seq<Piece>
    decreases |ops|
  {
    if ops == [] then [] else
      var front := ops[..|ops| - 1];
      Pieces(front, key) + PieceOf(LiveAfter(front, key), key, ops[|ops| - 1], ReportCount(front))
  }

  function Contents(pieces: seq<Piece>): seq<int> {
    if pieces == [] then [] else Contents(pieces[..|pieces| - 1]) + pieces[|pieces| - 1].vs
  }

  function Unreported(live: Option<Live>): seq<int> {
    if live.Some? then live.value.seen else []
  }

  lemma PieceAccounts(live: Option<Live>, key: Key, op: Op, n: nat)
    ensures (if PieceOf(live, key, op, n) == [] then [] else PieceOf(live, key, op, n)[0].vs)
            + Unreported(Next(live, key, op))
            == Unreported(live) + AcceptedBy(live, key, op)
  {
  }

  lemma ContentsNext(pieces: seq<Piece>, more: seq<Piece>)
    requires |more| <= 1
    ensures Contents(pieces + more) == Contents(pieces) + (if more == [] then [] else more[0].vs)
  {
    if more == [] {
      assert pieces + more == pieces;
    } else {
      assert (pieces + more)[..|pieces|] == pieces;
    }
  }

  lemma {:induction false} PiecesAccount(ops: seq<Op>, key: Key)
    ensures Contents(Pieces(ops, key)) + Unreported(LiveAfter(ops, key)) == Accepted(ops, key)
    decreases |ops|
  {
    hide Next, Unreported, AcceptedBy, Contents;
    if ops == [] {
      NoContents();
    } else {
      var front, op := ops[..|ops| - 1], ops[|ops| - 1];
      var live, pieces, n := LiveAfter(front, key), Pieces(front, key), ReportCount(front);
      var piece := PieceOf(live, key, op, n);
      PiecesAccount(front, key);
      PieceAccounts(live, key, op, n);
      ContentsNext(pieces, piece);
      Regroup(Contents(pieces), if piece == [] then [] else piece[0].vs,
              Unreported(Next(live, key, op)), Unreported(live), AcceptedBy(live, key, op));
    }
  }

  lemma NoContents()
    ensures Contents([]) == [] && Unreported(None) == []
  {
  }

  lemma Regroup(a: seq<int>, b: seq<int>, c: seq<int>, d: seq<int>, e: seq<int>)
    requires b + c == d + e
    ensures (a + b) + c == (a + d) + e
  {
    assert (a + b) + c == a + (b + c);
  }

  /** The report of a piece says of the key what the observations of the piece make. */
  predicate ShownIn(reports: seq<AggregatedMetrics>, key: Key, piece: Piece)
    requires piece.Shown?
  {
    piece.report < |reports| && Tells(Lookup(reports[piece.report], key), piece.kind, piece.vs)
  }

  lemma {:induction false} PiecesAreReported(reports: seq<AggregatedMetrics>, ops: seq<Op>, key: Key, i: nat)
    requires (forall k: nat :: k < |ops| ==> ReportSays(reports, ops, key, k)) && i < |Pieces(ops, key)|
    ensures Pieces(ops, key)[i].Shown? ==> ShownIn(reports, key, Pieces(ops, key)[i])
    decreases |ops|
  {
    hide Next, Lookup, Tells;
    var n := |ops| - 1;
    var front := ops[..n];
    if i < |Pieces(front, key)| {
      forall k: nat | k < n ensures ReportSays(reports, front, key, k) {
        assert ReportSays(reports, ops, key, k) && front[..k] == ops[..k];
      }
      PiecesAreReported(reports, front, key, i);
    } else if Pieces(ops, key)[i].Shown? {
      var live := LiveAfter(front, key);
      assert ReportSays(reports, ops, key, n);
    }
  }

  /** The pieces of different intervals are shown in different reports, in order. */
  lemma {:induction false} ReportsAreDistinct(ops: seq<Op>, key: Key, i: nat, j: nat)
    requires i < j < |Pieces(ops, key)| && Pieces(ops, key)[i].Shown? && Pieces(ops, key)[j].Shown?
    ensures Pieces(ops, key)[i].report < Pieces(ops, key)[j].report < ReportCount(ops)
    decreases |ops|
  {
    hide Next;
    var front := ops[..|ops| - 1];
    if j < |Pieces(front, key)| {
      ReportsAreDistinct(front, key, i, j);
    } else {
      ReportIsBefore(front, key, i);
    }
  }

  lemma {:induction false} ReportIsBefore(ops: seq<Op>, key: Key, i: nat)
    requires i < |Pieces(ops, key)| && Pieces(ops, key)[i].Shown?
    ensures Pieces(ops, key)[i].report < ReportCount(ops)
    decreases |ops|
  {
    hide Next;
    var front := ops[..|ops| - 1];
    if i < |Pieces(front, key)| {
      ReportIsBefore(front, key, i);
    }
  }

  /** Each piece of the observations of a key is shown in a report of its own, in order, or lost with the last handle. */
  ghost predicate Delivered(reports: seq<AggregatedMetrics>, key: Key, pieces: seq<Piece>) {
    && (forall i: nat :: i < |pieces| && pieces[i].Shown? ==> ShownIn(reports, key, pieces[i]))
    && (forall i: nat, j: nat :: i < j < |pieces| && pieces[i].Shown? && pieces[j].Shown? ==>
          pieces[i].report < pieces[j].report)
  }

  /** Over any run of a factory, the observations through the handles of a key are, in order and each exactly once, in
      the pieces that its reports show, in those that were lost with the last handle, or not reported yet. */
  lemma ExactlyOnce(reports: seq<AggregatedMetrics>, ops: seq<Op>, key: Key)
    requires ReportsSay(reports, ops, key)
    ensures Contents(Pieces(ops, key)) + Unreported(LiveAfter(ops, key)) == Accepted(ops, key)
    ensures Delivered(reports, key, Pieces(ops, key))
  {
    hide Pieces, Contents, Accepted, LiveAfter, ShownIn, ReportSays;
    PiecesAccount(ops, key);
    forall i: nat | i < |Pieces(ops, key)| && Pieces(ops, key)[i].Shown?
      ensures ShownIn(reports, key, Pieces(ops, key)[i])
    {
      PiecesAreReported(reports, ops, key, i);
    }
    forall i: nat, j: nat | i < j < |Pieces(ops, key)| && Pieces(ops, key)[i].Shown? && Pieces(ops, key)[j].Shown?
      ensures Pieces(ops, key)[i].report < Pieces(ops, key)[j].report
    {
      ReportsAreDistinct(ops, key, i, j);
    }
  }

  /** At call i the key loses its last handle. */
  predicate LastHandleGoes(ops: seq<Op>, key: Key, i: nat) {
    i < |ops| && LiveAfter(ops[..i], key).Some? && LiveAfter(ops[..i + 1], key).None?
  }

  /** The observations that were not reported before are lost at call i. */
  predicate LosesAt(ops: seq<Op>, key: Key, i: nat) {
    LastHandleGoes(ops, key, i) && LiveAfter(ops[..i], key).value.seen != []
  }

  predicate LostPiece(piece: Piece) {
    piece.Lost? && piece.vs != []
  }

  /** Some observation is lost exactly when the last handle of the key goes while something is not reported yet. In
      particular none is lost while some handle is kept. */
  lemma {:induction false} LostIffLastHandleGoes(ops: seq<Op>, key: Key)
    ensures (exists p :: p in Pieces(ops, key) && LostPiece(p)) <==> exists i: nat :: LosesAt(ops, key, i)
    decreases |ops|
  {
    if ops != [] {
      hide Next, LiveAfter;
      var n := |ops| - 1;
      var front := ops[..n];
      LostIffLastHandleGoes(front, key);
      LastPiece(ops, key);
      forall i: nat | i < n ensures LosesAt(ops, key, i) == LosesAt(front, key, i) {
        assert ops[..i] == front[..i] && ops[..i + 1] == front[..i + 1];
      }
      if i: nat :| LosesAt(ops, key, i) && i < n {
        assert LosesAt(front, key, i);
      }
      if i: nat :| LosesAt(front, key, i) {
        assert LosesAt(ops, key, i);
      }
    }
  }

  lemma LastPiece(ops: seq<Op>, key: Key)
    requires ops != []
    ensures var n := |ops| - 1;
      var more := PieceOf(LiveAfter(ops[..n], key), key, ops[n], ReportCount(ops[..n]));
      && Pieces(ops, key) == Pieces(ops[..n], key) + more && |more| <= 1
      && ((exists p :: p in more && LostPiece(p)) <==> LosesAt(ops, key, n))
  {
    var n := |ops| - 1;
    var live := LiveAfter(ops[..n], key);
    assert ops[..n + 1] == ops && LiveAfter(ops, key) == Next(live, key, ops[n]);
    var more := PieceOf(live, key, ops[n], ReportCount(ops[..n]));
    if LosesAt(ops, key, n) {
      assert more[0] in more;
    }
  }

  /** A gauge is made, observes 7, and its only handle is dropped: the 7 is in no report. */
  lemma DroppedBeforeReport(key: Key)
    ensures var ops := [Acquire(key, SumKind), Observe(key, SumKind, 7), Release(key)];
      Accepted(ops, key) == [7] && Pieces(ops, key) == [Lost([7])] && LiveAfter(ops, key) == None
  {
    hide LiveAfter, Accepted, Pieces, ReportCount;
    var first, second, third := Acquire(key, SumKind), Observe(key, SumKind, 7), Release(key);
    NothingCalled(key);
    OneMoreCall([], first, key);
    OneMoreCall([first], second, key);
    OneMoreCall([first, second], third, key);
    assert [] + [first] == [first] && [first] + [second] == [first, second];
    assert [first, second] + [third] == [first, second, third];
    assert [] + [7] == [7];
  }

  lemma NothingCalled(key: Key)
    ensures LiveAfter([], key) == None && Accepted([], key) == [] && Pieces([], key) == []
  {
  }

  lemma OneMoreCall(ops: seq<Op>, op: Op, key: Key)
    ensures LiveAfter(ops + [op], key) == Next(LiveAfter(ops, key), key, op)
    ensures Accepted(ops + [op], key) == Accepted(ops, key) + AcceptedBy(LiveAfter(ops, key), key, op)
    ensures Pieces(ops + [op], key) == Pieces(ops, key) + PieceOf(LiveAfter(ops, key), key, op, ReportCount(ops))
  {
    assert (ops + [op])[..|ops|] == ops;
  }
}
