/** The min, max, sum and count of a list of values (aggregation/statistic_set.rs) and the plain sum (aggregation/sum.rs). */
module StatisticSets {
  import opened Folds
  import opened Types

  datatype StatisticSet = StatisticSet(min: int, max: int, sum: int, count: nat)

  function MinInt(a: int, b: int): int {
    if a <= b then a else b
  }

  function MaxInt(a: int, b: int): int {
    if a >= b then a else b
  }

  const NO_VALUES := StatisticSet(I64_MAX, I64_MIN, 0, 0)

  function Accumulate(s: StatisticSet, v: int): StatisticSet {
    StatisticSet(MinInt(v, s.min), MaxInt(v, s.max), s.sum + v, s.count + 1)
  }

  function Stats(vs: seq<int>): StatisticSet {
    Fold(Accumulate, NO_VALUES, vs)
  }

  function AddTo(sum: int, v: int): int {
    sum + v
  }

  function SumOf(vs: seq<int>): int {
    Fold(AddTo, 0, vs)
  }

  predicate AllI64(vs: seq<int>) {
    forall i :: 0 <= i < |vs| ==> IsI64(vs[i])
  }

  /** The statistics are those of the list: how many values, what they add up to, the least and the greatest. */
  lemma {:induction false} StatsDescribe(vs: seq<int>)
    requires AllI64(vs)
    ensures Stats(vs).count == |vs| && Stats(vs).sum == SumOf(vs)
    ensures forall i :: 0 <= i < |vs| ==> Stats(vs).min <= vs[i] <= Stats(vs).max
    ensures if vs == [] then Stats(vs) == NO_VALUES else Stats(vs).min in vs && Stats(vs).max in vs
  {
    if vs != [] {
      var front := vs[..|vs| - 1];
      StatsDescribe(front);
      if front == [] {
        assert Fold(Accumulate, NO_VALUES, front) == NO_VALUES;
      }
    }
  }

  /** The set says how many values there are and what they add up to; of 64-bit values it holds the least and the
      greatest. */
  predicate Summary(s: StatisticSet, vs: seq<int>) {
    && s.count == |vs| && s.sum == SumOf(vs)
    && (AllI64(vs) && vs != [] ==> s.min in vs && s.max in vs && forall i :: 0 <= i < |vs| ==> s.min <= vs[i] <= s.max)
  }

  lemma StatsAreSummary(vs: seq<int>)
    ensures Summary(Stats(vs), vs)
  {
    hide Stats, SumOf;
    StatsTotals(vs);
    if AllI64(vs) {
      StatsDescribe(vs);
    }
  }

  lemma SummaryNext(s: StatisticSet, vs: seq<int>, v: int)
    requires if vs == [] then s == NO_VALUES else Summary(s, vs)
    ensures Summary(Accumulate(s, v), vs + [v])
  {
    var all, t := vs + [v], Accumulate(s, v);
    assert all[..|all| - 1] == vs;
    assert SumOf(all) == AddTo(SumOf(vs), v);
    assert vs == [] ==> SumOf(vs) == 0;
    if AllI64(all) {
      assert IsI64(all[|vs|]);
      assert forall i :: 0 <= i < |vs| ==> vs[i] == all[i];
      forall i | 0 <= i < |all| ensures t.min <= all[i] <= t.max {
        assert i < |vs| || all[i] == v;
      }
      assert vs == [] ==> t.min == all[|vs|] && t.max == all[|vs|];
      assert forall w :: w in all <==> w in vs || w == v;
    }
  }

  /** The sum is determined by its value on one element and on two parts. */
  lemma SumOfOne(v: int)
    ensures SumOf([]) == 0 && SumOf([v]) == v
  {
    FoldOne(AddTo, 0, v);
  }

  lemma {:induction false} StatsTotals(vs: seq<int>)
    ensures Stats(vs).count == |vs| && Stats(vs).sum == SumOf(vs)
  {
    if vs != [] {
      StatsTotals(vs[..|vs| - 1]);
    }
  }

  lemma {:induction false} SumOfConcat(vs: seq<int>, ws: seq<int>)
    ensures SumOf(vs + ws) == SumOf(vs) + SumOf(ws)
  {
    if ws == [] {
      assert vs + ws == vs;
    } else {
      assert (vs + ws)[..|vs + ws| - 1] == vs + ws[..|ws| - 1];
      SumOfConcat(vs, ws[..|ws| - 1]);
    }
  }

  lemma StatsNext(vs: seq<int>, v: int)
    ensures Stats(vs + [v]) == Accumulate(Stats(vs), v)
  {
    assert (vs + [v])[..|vs|] == vs;
  }

  lemma StepsCommute()
    ensures Commutes(Accumulate) && Commutes(AddTo)
  {
    forall s, x, y ensures Accumulate(Accumulate(s, x), y) == Accumulate(Accumulate(s, y), x) {
    }
  }

  lemma StatsIgnoreOrder(vs: seq<int>, ws: seq<int>)
    requires multiset(vs) == multiset(ws)
    ensures Stats(vs) == Stats(ws) && SumOf(vs) == SumOf(ws)
  {
    StepsCommute();
    FoldIgnoresOrder(Accumulate, NO_VALUES, vs, ws);
    FoldIgnoresOrder(AddTo, 0, vs, ws);
  }
}
