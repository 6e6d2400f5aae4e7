/** Weighted centroids, the prefix weight and mass of a list of them, and the stable order by mean
    that the t-digest keeps (aggregation/tdigest.rs). */
module Centroids {

  /** One cluster of observations. Weights and means are exact reals. */
  datatype Centroid = Centroid(mean: real, weight: real) {

    /** Total value of the observations in the cluster. */
    function Total(): real {
      mean * weight
    }

    /** Absorb observations of the given total value and total weight. Returns the grown centroid and its
        total value, which the callers add to the running sum of the digest. */
    function Add(total: real, extra: real): (r: (Centroid, real))
      requires weight + extra != 0.0
    {
      var newSum := total + Total();
      (Mean(newSum, weight + extra), newSum)
    }
  }

  /** The centroid of the given total value and weight. */
  function Mean(total: real, weight: real): Centroid
    requires weight != 0.0
  {
    Centroid(total / weight, weight)
  }

  /** A weight that counts observations: a positive whole number. */
  predicate Whole(w: real) {
    w >= 1.0 && w == w.Floor as real
  }

  predicate AllWhole(xs: seq<Centroid>) {
    forall i :: 0 <= i < |xs| ==> Whole(xs[i].weight)
  }

  predicate Sorted(xs: seq<Centroid>) {
    forall i, j :: 0 <= i < j < |xs| ==> xs[i].mean <= xs[j].mean
  }

  /** Total weight of the first n centroids. */
  function WeightTo(xs: seq<Centroid>, n: nat): real
    requires n <= |xs|
  {
    if n == 0 then 0.0 else WeightTo(xs, n - 1) + xs[n - 1].weight
  }

  /** Total value (mean times weight) of the first n centroids. */
  function MassTo(xs: seq<Centroid>, n: nat): real
    requires n <= |xs|
  {
    if n == 0 then 0.0 else MassTo(xs, n - 1) + xs[n - 1].Total()
  }

  function Weight(xs: seq<Centroid>): real {
    WeightTo(xs, |xs|)
  }

  function Mass(xs: seq<Centroid>): real {
    MassTo(xs, |xs|)
  }

  lemma PrefixOfConcat(a: seq<Centroid>, b: seq<Centroid>, n: nat)
    requires n <= |a|
    ensures WeightTo(a + b, n) == WeightTo(a, n)
    ensures MassTo(a + b, n) == MassTo(a, n)
  {
    if n > 0 {
      PrefixOfConcat(a, b, n - 1);
      assert (a + b)[n - 1] == a[n - 1];
    }
  }

  /** Weight and mass of a concatenation add up. */
  lemma {:induction false} TotalsOfConcat(a: seq<Centroid>, b: seq<Centroid>)
    ensures Weight(a + b) == Weight(a) + Weight(b)
    ensures Mass(a + b) == Mass(a) + Mass(b)
    decreases |b|
  {
    if b == [] {
      assert a + b == a;
    } else {
      var last := |b| - 1;
      TotalsOfConcat(a, b[..last]);
      assert a + b == (a + b[..last]) + [b[last]];
      PrefixOfConcat(a + b[..last], [b[last]], |a| + last);
      PrefixOfConcat(b[..last], [b[last]], last);
      assert b == b[..last] + [b[last]];
    }
  }

  /** Prefix weights grow strictly when weights are positive whole numbers. */
  lemma {:induction false} WeightGrows(xs: seq<Centroid>, a: nat, b: nat)
    requires AllWhole(xs) && a <= b <= |xs|
    ensures WeightTo(xs, a) + (b - a) as real <= WeightTo(xs, b)
    decreases b
  {
    if a < b {
      WeightGrows(xs, a, b - 1);
    }
  }

  /** A sum of whole weights is whole. */
  lemma {:induction false} WholeTotals(xs: seq<Centroid>, n: nat)
    requires AllWhole(xs) && n <= |xs|
    ensures WeightTo(xs, n).Floor as real == WeightTo(xs, n)
    ensures n > 0 ==> Whole(WeightTo(xs, n))
  {
    if n > 0 {
      WholeTotals(xs, n - 1);
      WholeSum(WeightTo(xs, n - 1), xs[n - 1].weight);
      WeightGrows(xs, 0, n);
    }
  }

  lemma WholeSum(x: real, y: real)
    requires x == x.Floor as real && y == y.Floor as real
    ensures (x + y).Floor == x.Floor + y.Floor
    ensures (x + y) == (x + y).Floor as real
  {
  }

  lemma IntIsWhole(n: int)
    requires n >= 1
    ensures Whole(n as real)
  {
  }

  lemma WholeDifference(x: real, y: real)
    requires x == x.Floor as real && y == y.Floor as real && x - y >= 1.0
    ensures Whole(x - y)
  {
    var n := x.Floor - y.Floor;
    assert n as real == x - y;
    IntIsWhole(n);
  }

  // ----- the stable sort by mean and the stable merge of two runs

  /** Put c in front of the first centroid that is not smaller. */
  function Insert(c: Centroid, xs: seq<Centroid>): seq<Centroid> {
    if xs == [] || c.mean <= xs[0].mean then [c] + xs else [xs[0]] + Insert(c, xs[1..])
  }

  /** The stable sort by mean: equal means keep their order of arrival. */
  function SortByMean(xs: seq<Centroid>): seq<Centroid> {
    if xs == [] then [] else Insert(xs[0], SortByMean(xs[1..]))
  }

  /** The stable merge of two runs: on equal means the left run goes first. */
  function MergeRuns(a: seq<Centroid>, b: seq<Centroid>): seq<Centroid>
    decreases |a| + |b|
  {
    if a == [] then b
    else if b == [] then a
    else if b[0].mean < a[0].mean then [b[0]] + MergeRuns(a, b[1..])
    else [a[0]] + MergeRuns(a[1..], b)
  }

  lemma {:induction false} InsertHolds(c: Centroid, xs: seq<Centroid>)
    ensures multiset(Insert(c, xs)) == multiset{c} + multiset(xs)
    ensures |Insert(c, xs)| == |xs| + 1
  {
    if xs != [] && !(c.mean <= xs[0].mean) {
      InsertHolds(c, xs[1..]);
      assert xs == [xs[0]] + xs[1..];
    }
  }

  lemma {:induction false} InsertSorts(c: Centroid, xs: seq<Centroid>)
    requires Sorted(xs)
    ensures Sorted(Insert(c, xs))
    ensures Insert(c, xs)[0] == c || (xs != [] && Insert(c, xs)[0] == xs[0])
  {
    if xs != [] && !(c.mean <= xs[0].mean) {
      InsertSorts(c, xs[1..]);
      ConsSorted(xs[0], Insert(c, xs[1..]));
    } else {
      ConsSorted(c, xs);
    }
  }

  lemma ConsSorted(c: Centroid, xs: seq<Centroid>)
    requires Sorted(xs) && (xs == [] || c.mean <= xs[0].mean)
    ensures Sorted([c] + xs)
  {
    forall i, j | 0 <= i < j < |xs| + 1 ensures ([c] + xs)[i].mean <= ([c] + xs)[j].mean {
      if i == 0 {
        assert xs[0].mean <= xs[j - 1].mean;
      } else {
        assert xs[i - 1].mean <= xs[j - 1].mean;
      }
    }
  }

  /** SortByMean returns a sorted permutation of its argument. */
  lemma {:induction false} SortByMeanSorts(xs: seq<Centroid>)
    ensures Sorted(SortByMean(xs))
    ensures multiset(SortByMean(xs)) == multiset(xs)
    ensures |SortByMean(xs)| == |xs|
  {
    if xs != [] {
      SortByMeanSorts(xs[1..]);
      InsertSorts(xs[0], SortByMean(xs[1..]));
      InsertHolds(xs[0], SortByMean(xs[1..]));
      assert xs == [xs[0]] + xs[1..];
    }
  }

  /** Sorting a sorted list changes nothing. */
  lemma {:induction false} SortOfSorted(xs: seq<Centroid>)
    requires Sorted(xs)
    ensures SortByMean(xs) == xs
  {
    if xs != [] {
      SortOfSorted(xs[1..]);
      assert xs == [xs[0]] + xs[1..];
    }
  }

  /** The centroids of one mean, in order. */
  function WithMean(xs: seq<Centroid>, m: real): seq<Centroid> {
    if xs == [] then [] else (if xs[0].mean == m then [xs[0]] else []) + WithMean(xs[1..], m)
  }

  lemma {:induction false} WithMeanConcat(xs: seq<Centroid>, ys: seq<Centroid>, m: real)
    ensures WithMean(xs + ys, m) == WithMean(xs, m) + WithMean(ys, m)
  {
    if xs == [] {
      assert xs + ys == ys;
    } else {
      WithMeanConcat(xs[1..], ys, m);
      assert (xs + ys)[1..] == xs[1..] + ys;
    }
  }

  lemma WithMeanCons(c: Centroid, xs: seq<Centroid>, m: real)
    ensures WithMean([c] + xs, m) == (if c.mean == m then [c] else []) + WithMean(xs, m)
  {
    assert ([c] + xs)[1..] == xs;
  }

  lemma {:induction false} InsertIsStable(c: Centroid, xs: seq<Centroid>, m: real)
    ensures WithMean(Insert(c, xs), m) == (if c.mean == m then [c] else []) + WithMean(xs, m)
  {
    WithMeanCons(c, xs, m);
    if xs != [] && !(c.mean <= xs[0].mean) {
      InsertIsStable(c, xs[1..], m);
      WithMeanCons(xs[0], Insert(c, xs[1..]), m);
    }
  }

  /** Sorting keeps centroids of the same mean in their order. */
  lemma {:induction false} SortIsStable(xs: seq<Centroid>, m: real)
    ensures WithMean(SortByMean(xs), m) == WithMean(xs, m)
  {
    if xs != [] {
      SortIsStable(xs[1..], m);
      InsertIsStable(xs[0], SortByMean(xs[1..]), m);
    }
  }

  lemma {:induction false} InsertThenMerge(c: Centroid, a: seq<Centroid>, b: seq<Centroid>)
    requires Sorted(b)
    ensures MergeRuns(Insert(c, a), b) == Insert(c, MergeRuns(a, b))
    decreases |a| + |b|
  {
    var ins := Insert(c, a);
    if b == [] {
    } else if a == [] {
      assert ins == [c];
      if b[0].mean < c.mean {
        InsertThenMerge(c, a, b[1..]);
      } else {
        assert ins[1..] == [];
      }
    } else if c.mean <= a[0].mean {
      assert ins == [c] + a && ins[1..] == a;
      if b[0].mean < c.mean {
        InsertThenMerge(c, a, b[1..]);
        assert MergeRuns(a, b)[1..] == MergeRuns(a, b[1..]);
      }
    } else {
      assert ins == [a[0]] + Insert(c, a[1..]) && ins[1..] == Insert(c, a[1..]);
      if b[0].mean < a[0].mean {
        InsertThenMerge(c, a, b[1..]);
        assert MergeRuns(a, b)[1..] == MergeRuns(a, b[1..]);
      } else {
        InsertThenMerge(c, a[1..], b);
        assert MergeRuns(a, b)[1..] == MergeRuns(a[1..], b);
      }
    }
  }

  lemma SortOfCons(c: Centroid, xs: seq<Centroid>, ys: seq<Centroid>)
    ensures SortByMean([c] + xs) == Insert(c, SortByMean(xs))
    ensures SortByMean([c] + xs + ys) == Insert(c, SortByMean(xs + ys))
  {
    assert ([c] + xs)[1..] == xs;
    assert ([c] + xs + ys)[1..] == xs + ys;
  }

  /** Merging two stably sorted runs is the stable sort of their concatenation. */
  lemma {:induction false} MergeOfSorts(a: seq<Centroid>, b: seq<Centroid>)
    ensures MergeRuns(SortByMean(a), SortByMean(b)) == SortByMean(a + b)
  {
    if a == [] {
      assert a + b == b;
    } else {
      SortByMeanSorts(b);
      MergeOfSorts(a[1..], b);
      InsertThenMerge(a[0], SortByMean(a[1..]), SortByMean(b));
      SortOfCons(a[0], a[1..], b);
      assert [a[0]] + a[1..] == a;
    }
  }

  lemma FirstOut(a: seq<Centroid>, b: seq<Centroid>)
    requires b != []
    ensures multiset(a + b) == multiset{b[0]} + multiset(a + b[1..])
    ensures multiset(b + a) == multiset{b[0]} + multiset(b[1..] + a)
  {
    assert b == [b[0]] + b[1..];
  }

  lemma ConsHolds(c: Centroid, xs: seq<Centroid>)
    ensures multiset([c] + xs) == multiset{c} + multiset(xs)
  {
  }

  /** Merging loses and adds nothing. */
  lemma {:induction false} MergeHolds(a: seq<Centroid>, b: seq<Centroid>)
    ensures multiset(MergeRuns(a, b)) == multiset(a + b)
    decreases |a| + |b|
  {
    if a == [] {
      assert a + b == b;
    } else if b == [] {
      assert a + b == a;
    } else if b[0].mean < a[0].mean {
      MergeHolds(a, b[1..]);
      FirstOut(a, b);
      ConsHolds(b[0], MergeRuns(a, b[1..]));
    } else {
      MergeHolds(a[1..], b);
      FirstOut(b, a);
      ConsHolds(a[0], MergeRuns(a[1..], b));
    }
  }

  lemma {:induction false} LengthOfMerge(a: seq<Centroid>, b: seq<Centroid>)
    ensures |MergeRuns(a, b)| == |a| + |b|
    decreases |a| + |b|
  {
    if a != [] && b != [] {
      if b[0].mean < a[0].mean {
        LengthOfMerge(a, b[1..]);
      } else {
        LengthOfMerge(a[1..], b);
      }
    }
  }

  // ----- permutations keep the totals

  lemma {:induction false} TotalsOfInsert(c: Centroid, xs: seq<Centroid>)
    ensures Weight(Insert(c, xs)) == c.weight + Weight(xs)
    ensures Mass(Insert(c, xs)) == c.Total() + Mass(xs)
  {
    if xs == [] || c.mean <= xs[0].mean {
      TotalsOfConcat([c], xs);
      SingletonTotals(c);
    } else {
      TotalsOfInsert(c, xs[1..]);
      TotalsOfConcat([xs[0]], Insert(c, xs[1..]));
      TotalsOfConcat([xs[0]], xs[1..]);
      assert [xs[0]] + xs[1..] == xs;
    }
  }

  /** Merging moves no weight and no mass, whatever the order of the runs. */
  lemma {:induction false} MergeKeepsTotals(a: seq<Centroid>, b: seq<Centroid>)
    ensures Weight(MergeRuns(a, b)) == Weight(a) + Weight(b)
    ensures Mass(MergeRuns(a, b)) == Mass(a) + Mass(b)
    ensures AllWhole(a) && AllWhole(b) ==> AllWhole(MergeRuns(a, b))
    decreases |a| + |b|
  {
    hide WeightTo, MassTo, Whole;
    NoTotals();
    if a != [] && b != [] {
      if b[0].mean < a[0].mean {
        MergeKeepsTotals(a, b[1..]);
        TotalsOfCons(b[0], b[1..]);
        TotalsOfCons(b[0], MergeRuns(a, b[1..]));
        assert [b[0]] + b[1..] == b;
      } else {
        MergeKeepsTotals(a[1..], b);
        TotalsOfCons(a[0], a[1..]);
        TotalsOfCons(a[0], MergeRuns(a[1..], b));
        assert [a[0]] + a[1..] == a;
      }
    }
  }

  lemma TotalsOfCons(c: Centroid, xs: seq<Centroid>)
    ensures Weight([c] + xs) == c.weight + Weight(xs) && Mass([c] + xs) == c.Total() + Mass(xs)
  {
    TotalsOfConcat([c], xs);
    SingletonTotals(c);
  }

  lemma NoTotals()
    ensures Weight([]) == 0.0 && Mass([]) == 0.0
  {
  }

  lemma SingletonTotals(c: Centroid)
    ensures Weight([c]) == c.weight && Mass([c]) == c.Total()
  {
    assert WeightTo([c], 0) == 0.0 && MassTo([c], 0) == 0.0;
  }

  /** Sorting moves no weight and no mass. */
  lemma {:induction false} SortKeepsTotals(xs: seq<Centroid>)
    ensures Weight(SortByMean(xs)) == Weight(xs)
    ensures Mass(SortByMean(xs)) == Mass(xs)
  {
    if xs != [] {
      SortKeepsTotals(xs[1..]);
      TotalsOfInsert(xs[0], SortByMean(xs[1..]));
      TotalsOfConcat([xs[0]], xs[1..]);
      SingletonTotals(xs[0]);
      assert [xs[0]] + xs[1..] == xs;
    }
  }

  lemma {:induction false} InsertKeepsWhole(c: Centroid, xs: seq<Centroid>)
    requires Whole(c.weight) && AllWhole(xs)
    ensures AllWhole(Insert(c, xs))
  {
    if xs != [] && !(c.mean <= xs[0].mean) {
      InsertKeepsWhole(c, xs[1..]);
    }
  }

  lemma {:induction false} SortKeepsWhole(xs: seq<Centroid>)
    requires AllWhole(xs)
    ensures AllWhole(SortByMean(xs))
  {
    if xs != [] {
      SortKeepsWhole(xs[1..]);
      InsertKeepsWhole(xs[0], SortByMean(xs[1..]));
    }
  }

  lemma {:induction false} SortKeepsRange(xs: seq<Centroid>, lo: real, hi: real)
    requires forall k :: 0 <= k < |xs| ==> lo <= xs[k].mean <= hi
    ensures forall k :: 0 <= k < |SortByMean(xs)| ==> lo <= SortByMean(xs)[k].mean <= hi
  {
    SortByMeanSorts(xs);
    forall k | 0 <= k < |SortByMean(xs)| ensures lo <= SortByMean(xs)[k].mean <= hi {
      assert SortByMean(xs)[k] in multiset(xs);
      assert SortByMean(xs)[k] in xs;
    }
  }

  /** Inserting two centroids commutes unless they differ only in what the order cannot see. */
  lemma {:induction false} InsertsCommute(a: Centroid, b: Centroid, xs: seq<Centroid>)
    requires a == b || a.mean != b.mean
    ensures Insert(a, Insert(b, xs)) == Insert(b, Insert(a, xs))
  {
    if xs != [] && xs[0].mean < a.mean && xs[0].mean < b.mean {
      InsertsCommute(a, b, xs[1..]);
      ConsInsert(a, xs[0], Insert(b, xs[1..]));
      ConsInsert(b, xs[0], Insert(a, xs[1..]));
    } else if a != b {
      ConsInsert(a, b, xs);
      ConsInsert(b, a, xs);
      if xs != [] {
        ConsInsert(a, xs[0], xs[1..]);
        ConsInsert(b, xs[0], xs[1..]);
        ConsInsert(a, xs[0], Insert(b, xs[1..]));
        ConsInsert(b, xs[0], Insert(a, xs[1..]));
      }
    }
  }

  lemma ConsInsert(c: Centroid, x: Centroid, xs: seq<Centroid>)
    ensures Insert(c, [x] + xs) == if c.mean <= x.mean then [c, x] + xs else [x] + Insert(c, xs)
  {
    assert ([x] + xs)[1..] == xs;
    assert [c] + ([x] + xs) == [c, x] + xs;
  }
}
