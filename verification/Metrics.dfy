/** One unit of work's metrics (metrics.rs): dimensions, measurements, and dimensions that a guard can still change. */
module Metrics {
  import opened Types

  /** The value that a guard shares with the metrics it was taken from. */
  class Cell {
    var value: Dimension

    constructor (value: Dimension)
      ensures this.value == value
    {
      this.value := value;
    }
  }

  class DimensionGuard {
    const value: Cell

    constructor (value: Cell)
      ensures this.value == value
    {
      this.value := value;
    }

    /** Breadcrumb and set write the shared value, whether or not the metrics still look at it. */
    method Set(dimension: Dimension)
      modifies value
      ensures value.value == dimension
    {
      value.value := dimension;
    }
  }

  datatype OverrideDimension = OverrideDimension(name: Name, cell: Cell)

  /** What a guard says at some moment. */
  datatype Override = Override(name: Name, value: Dimension)

  const UNINITIALIZED := Str("_uninitialized_")
  const NONE := StrText("__none__")

  /** The dimensions once the overrides are written over them, from the last guard to the first. */
  function Overridden(dimensions: DimensionPosition, overrides: seq<Override>): DimensionPosition
  {
    if overrides == [] then dimensions
    else Overridden(dimensions, overrides[1..])[overrides[0].name := overrides[0].value]
  }

  /** No guard before the i-th has its name. */
  predicate Earliest(overrides: seq<Override>, i: nat)
    requires i < |overrides|
  {
    forall j :: 0 <= j < i ==> overrides[j].name != overrides[i].name
  }

  predicate Guarded(overrides: seq<Override>, name: Name) {
    exists j :: 0 <= j < |overrides| && overrides[j].name == name
  }

  predicate Holds(dimensions: DimensionPosition, name: Name, value: Dimension) {
    name in dimensions && dimensions[name] == value
  }

  predicate SameAt(dimensions: DimensionPosition, before: DimensionPosition, name: Name) {
    (name in dimensions <==> name in before) && (name in before ==> dimensions[name] == before[name])
  }

  /** A guard beats a plain dimension of its name, and of several guards with one name the earliest beats the others. */
  lemma {:induction false} EarliestGuardWins(dimensions: DimensionPosition, overrides: seq<Override>, i: nat)
    requires i < |overrides| && Earliest(overrides, i)
    ensures Holds(Overridden(dimensions, overrides), overrides[i].name, overrides[i].value)
  {
    if i > 0 {
      EarliestGuardWins(dimensions, overrides[1..], i - 1);
    }
  }

  /** Without a guard of its name a dimension is as it was. */
  lemma {:induction false} UnguardedStays(dimensions: DimensionPosition, overrides: seq<Override>, name: Name)
    requires !Guarded(overrides, name)
    ensures SameAt(Overridden(dimensions, overrides), dimensions, name)
  {
    if overrides != [] {
      assert overrides[0].name != name;
      assert forall j :: 0 <= j < |overrides[1..]| ==> overrides[1..][j] == overrides[j + 1];
      UnguardedStays(dimensions, overrides[1..], name);
    }
  }

  /** The dimensions are what the overrides make of those before: a suppressed object keeps what it had; otherwise the
      earliest guard of a name decides its value, and a name without a guard is as before. */
  ghost predicate Effective(
      dimensions: DimensionPosition, before: DimensionPosition, overrides: seq<Override>, suppressed: bool)
  {
    if suppressed then dimensions == before else
      && (forall i: nat :: i < |overrides| && Earliest(overrides, i)
                           ==> Holds(dimensions, overrides[i].name, overrides[i].value))
      && (forall name :: !Guarded(overrides, name) ==> SameAt(dimensions, before, name))
  }

  lemma OverriddenIsEffective(before: DimensionPosition, overrides: seq<Override>)
    ensures Effective(Overridden(before, overrides), before, overrides, false)
  {
    var dimensions := Overridden(before, overrides);
    forall i: nat | i < |overrides| && Earliest(overrides, i)
      ensures Holds(dimensions, overrides[i].name, overrides[i].value)
    {
      EarliestGuardWins(before, overrides, i);
    }
    forall name | !Guarded(overrides, name) ensures SameAt(dimensions, before, name) {
      UnguardedStays(before, overrides, name);
    }
  }

  lemma NoOverrides()
    ensures forall dimensions :: Overridden(dimensions, []) == dimensions
  {
  }

  class Metrics {
    var metricsName: Name
    var dimensions: DimensionPosition
    var measurements: map<Name, Measurement>
    var guards: seq<OverrideDimension>
    var suppressed: bool

    /** Every guard has a cell of its own. */
    ghost predicate Valid()
      reads this
    {
      forall i, j :: 0 <= i < j < |guards| ==> guards[i].cell != guards[j].cell
    }

    ghost function Cells(): set<Cell>
      reads this
    {
      set d | d in guards :: d.cell
    }

    /** What the guards say now. */
    ghost function Overrides(): (os: seq<Override>)
      reads this, Cells()
      ensures |os| == |guards|
      ensures forall i :: 0 <= i < |guards| ==> os[i] == Override(guards[i].name, guards[i].cell.value)
    {
      OverridesOf(guards)
    }

    /** The dimensions that an aggregator will see. */
    ghost function Position(): DimensionPosition
      reads this, Cells()
    {
      if suppressed then dimensions else Overridden(dimensions, Overrides())
    }

    constructor (name: Name)
      ensures Valid() && metricsName == name && dimensions == map[] && measurements == map[]
      ensures guards == [] && !suppressed
    {
      metricsName, dimensions, measurements, guards, suppressed := name, map[], map[], [], false;
    }

    /** The last write of a dimension wins; a suppressed object takes none. */
    method Dimension(name: Name, value: Dimension)
      modifies `dimensions
      ensures dimensions == if suppressed then old(dimensions) else old(dimensions)[name := value]
    {
      if suppressed {
        return;
      }
      dimensions := dimensions[name := value];
    }

    method Record(name: Name, measurement: Measurement)
      requires !measurement.Summed?
      modifies `measurements
      ensures measurements == if suppressed then old(measurements) else old(measurements)[name := measurement]
    {
      if suppressed {
        return;
      }
      measurements := measurements[name := measurement];
    }

    /** Sums of one name add up; a name that already measures something else keeps it. */
    method Sum(name: Name, value: int)
      modifies `measurements
      ensures suppressed ==> measurements == old(measurements)
      ensures !suppressed ==> measurements - {name} == old(measurements) - {name} && name in measurements
      ensures !suppressed ==>
          measurements[name] ==
          if name !in old(measurements) then Summed(value)
          else if old(measurements)[name].Summed? then Summed(old(measurements)[name].v + value)
          else old(measurements)[name]
    {
      if suppressed {
        return;
      }
      if name in measurements {
        match measurements[name] {
          case Observed(_) =>
          case Distributed(_) =>
          case Summed(v) => measurements := measurements[name := Summed(v + value)];
        }
      } else {
        measurements := measurements[name := Summed(value)];
      }
    }

    /** A suppressed object hands out a guard that nothing reads. */
    method GuardedDimension(name: Name, default: Dimension) returns (guard: DimensionGuard)
      requires Valid()
      modifies `guards
      ensures Valid() && fresh(guard) && fresh(guard.value) && guard.value.value == default
      ensures guards == if suppressed then old(guards) else old(guards) + [OverrideDimension(name, guard.value)]
    {
      var cell := new Cell(default);
      guard := new DimensionGuard(cell);
      if !suppressed {
        guards := guards + [OverrideDimension(name, cell)];
      }
    }

    method Suppress()
      modifies `suppressed
      ensures suppressed
    {
      suppressed := true;
    }

    /** Pops the last guard, consumes its value and writes it: the effective dimensions stay what they were. */
    method RedeemLast()
      requires Valid() && guards != []
      modifies `dimensions, `guards, guards[|guards| - 1].cell
      ensures Valid() && guards == old(guards[..|guards| - 1])
      ensures dimensions == if suppressed then old(dimensions) else
                old(dimensions[guards[|guards| - 1].name := guards[|guards| - 1].cell.value])
      ensures old(guards[|guards| - 1].cell).value == NONE
      ensures Position() == old(Position())
    {
      hide Overridden;
      OverriddenLast(dimensions, Overrides());
      ghost var before := Overrides();
      var d := guards[|guards| - 1];
      guards := guards[..|guards| - 1];
      var value := d.cell.value;
      d.cell.value := NONE;
      assert Overrides() == before[..|guards|];
      Dimension(d.name, value);
    }

    /** Pops the guards from the last to the first. Afterwards each name has the value of its earliest guard, names
        without a guard are as they were, and the cells of the guards are dead. A suppressed object keeps its
        dimensions. */
    method Drain()
      requires Valid()
      modifies `dimensions, `guards, Cells()
      ensures guards == [] && Valid()
      ensures suppressed ==> dimensions == old(dimensions)
      ensures !suppressed ==> forall i: nat ::
          i < |old(guards)| && old(Earliest(Overrides(), i))
          ==> Holds(dimensions, old(guards)[i].name, old(guards[i].cell.value))
      ensures !suppressed ==> forall name ::
          (forall j :: 0 <= j < |old(guards)| ==> old(guards)[j].name != name)
          ==> SameAt(dimensions, old(dimensions), name)
      ensures Effective(dimensions, old(dimensions), old(Overrides()), suppressed)
      ensures forall d :: 0 <= d < |old(guards)| ==> old(guards)[d].cell.value == NONE
    {
      hide Overridden, OverridesOf, Earliest, Holds, SameAt;
      ghost var all := guards;
      OverriddenIsEffective(dimensions, Overrides());
      NoOverrides();
      while guards != []
        invariant guards <= all && Valid()
        invariant Position() == old(Position())
        invariant forall d :: |guards| <= d < |all| ==> all[d].cell.value == NONE
        decreases |guards|
      {
        RedeemLast();
      }
    }
  }

  lemma {:induction false} OverriddenLast(dimensions: DimensionPosition, overrides: seq<Override>)
    requires overrides != []
    ensures var last := overrides[|overrides| - 1];
      Overridden(dimensions, overrides) == Overridden(dimensions[last.name := last.value], overrides[..|overrides| - 1])
  {
    if |overrides| > 1 {
      OverriddenLast(dimensions, overrides[1..]);
      assert overrides[1..][..|overrides| - 2] == overrides[..|overrides| - 1][1..];
    }
  }

  ghost function OverridesOf(guards: seq<OverrideDimension>): (os: seq<Override>)
    reads set d | d in guards :: d.cell
    ensures |os| == |guards|
    ensures forall i :: 0 <= i < |guards| ==> os[i] == Override(guards[i].name, guards[i].cell.value)
  {
    if guards == [] then [] else
      OverridesOf(guards[..|guards| - 1]) + [Override(guards[|guards| - 1].name, guards[|guards| - 1].cell.value)]
  }
}
