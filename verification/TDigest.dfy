/** The t-digest sketch (aggregation/tdigest.rs): merging observations and merging digests.
    Every method is proved against one reference: sort the old centroids and the new inputs stably by mean,
    then compress the sorted list cluster by cluster. */
module TDigests {
  import opened Options
  import opened Centroids
  import opened Values
  import opened ScaleFunction
  import opened Compression

  /** NaN extremes of an empty digest are None. */
  datatype TDigest = TDigest(centroids: seq<Centroid>, maxSize: nat, sum: real, count: real, max: Option<real>, min: Option<real>) {

    /** The class invariant. */
    ghost predicate Valid() {
      && maxSize >= 1
      && AllWhole(centroids) && Sorted(centroids)
      && count == Weight(centroids) && sum == Mass(centroids)
      && (centroids != [] ==> min.Some? && max.Some? && forall i :: 0 <= i < |centroids| ==> min.value <= centroids[i].mean <= max.value)
    }

    /** Empty the digest in place: the extremes become 0, not NaN. */
    function Reset(): TDigest {
      TDigest([], maxSize, 0.0, 0.0, Some(0.0), Some(0.0))
    }
  }

  function NewWithSize(maxSize: nat): TDigest {
    TDigest([], maxSize, 0.0, 0.0, None, None)
  }

  function Default(): TDigest {
    NewWithSize(100)
  }

  /** Cluster limits of a compression: the share of the scale function times all weight. `lag` is the number of
      later clusters that still use the first limit. */
  function Shares(d: nat, lag: nat, total: real): Bounds
    requires d >= 1
  {
    (j: nat) => Share(d, lag, total, j)
  }

  function Share(d: nat, lag: nat, total: real, j: nat): real
    requires d >= 1
  {
    ScaledLimit(Step(lag, j), d, total)
  }

  function ScaledLimit(k: nat, d: nat, total: real): real
    requires d >= 1
  {
    KToQ(k as real, d as real) * total
  }

  function Step(lag: nat, j: nat): nat {
    if j < lag then 1 else j + 1 - lag
  }

  // ----- the reference for merging observations

  /** All inputs of a merge in the order in which it compresses them. */
  function Arranged(digest: TDigest, values: seq<real>): (xs: seq<Centroid>)
    requires AllWhole(digest.centroids)
    ensures AllWhole(xs)
  {
    UnitsWhole(values);
    SortKeepsWhole(Units(values) + digest.centroids);
    SortByMean(Units(values) + digest.centroids)
  }

  /** The digest after absorbing observations, whatever their order. */
  function Absorb(digest: TDigest, values: seq<real>): TDigest
    requires digest.Valid()
  {
    CountSign(digest);
    if values == [] then digest else
      var xs := Arranged(digest, values);
      var n := digest.count + |values| as real;
      var nonEmpty := digest.count > 0.0;
      TDigest(Compress(xs, Shares(digest.maxSize, 0, n)), digest.maxSize, Mass(xs), n,
              Some(if nonEmpty then Max(digest.max.value, MaxOf(values)) else MaxOf(values)),
              Some(if nonEmpty then Min(digest.min.value, MinOf(values)) else MinOf(values)))
  }

  lemma CountSign(digest: TDigest)
    requires digest.Valid()
    ensures digest.count >= 0.0
    ensures digest.count > 0.0 <==> digest.centroids != []
  {
    WeightGrows(digest.centroids, 0, |digest.centroids|);
  }

  lemma ArrangedFacts(digest: TDigest, values: seq<real>)
    requires digest.Valid()
    ensures var xs := Arranged(digest, values);
            && Sorted(xs) && multiset(xs) == multiset(Units(values)) + multiset(digest.centroids)
            && |xs| == |values| + |digest.centroids|
            && Weight(xs) == digest.count + |values| as real
            && Mass(xs) == digest.sum + Sum(values)
  {
    var all := Units(values) + digest.centroids;
    UnitsWhole(values);
    SortByMeanSorts(all);
    SortKeepsTotals(all);
    TotalsOfConcat(Units(values), digest.centroids);
    UnitTotals(values);
  }

  /** The extremes of r are those of the digest and the new observations together: no observation and no old extreme
      lies outside, and each is an observation or the old extreme. */
  ghost predicate Widened(digest: TDigest, values: seq<real>, r: TDigest)
    requires digest.Valid()
  {
    && r.min.Some? && r.max.Some?
    && (forall i :: 0 <= i < |values| ==> r.min.value <= values[i] <= r.max.value)
    && (digest.centroids != [] ==> r.min.value <= digest.min.value && digest.max.value <= r.max.value)
    && (r.min.value in values || (digest.centroids != [] && r.min == digest.min))
    && (r.max.value in values || (digest.centroids != [] && r.max == digest.max))
  }

  lemma AbsorbWidens(digest: TDigest, values: seq<real>)
    requires digest.Valid() && values != []
    ensures Widened(digest, values, Absorb(digest, values))
  {
    hide Compress, Shares, Arranged, MinOf, MaxOf, WeightTo, MassTo;
    CountSign(digest);
    ExtremesBound(values);
  }

  /** Absorbing keeps the class invariant, adds exactly the new observations to count and sum, widens the
      extremes exactly to the new observations, and stays within max_size. */
  lemma AbsorbKeepsInvariant(digest: TDigest, values: seq<real>)
    requires digest.Valid()
    ensures var r := Absorb(digest, values);
            && r.Valid() && r.maxSize == digest.maxSize
            && r.count == digest.count + |values| as real
            && r.sum == digest.sum + Sum(values)
            && (values != [] ==> |r.centroids| <= digest.maxSize && r.centroids != [])
            && (values != [] ==> Widened(digest, values, r))
  {
    if values == [] {
      assert Sum(values) == 0.0;
    } else {
      hide *;
      AbsorbWidens(digest, values);
      AbsorbTotals(digest, values);
      AbsorbValid(digest, values);
    }
  }

  lemma AbsorbTotals(digest: TDigest, values: seq<real>)
    requires digest.Valid() && values != []
    ensures var r := Absorb(digest, values);
            && r.maxSize == digest.maxSize && r.count == digest.count + |values| as real
            && r.sum == digest.sum + Sum(values)
            && r.centroids == Compress(Arranged(digest, values), Shares(digest.maxSize, 0, r.count))
  {
    hide Compress, Shares, Arranged, Mass, Sum, MinOf, MaxOf;
    ArrangedFacts(digest, values);
  }

  lemma AbsorbValid(digest: TDigest, values: seq<real>)
    requires digest.Valid() && values != []
    ensures var r := Absorb(digest, values);
      r.Valid() && |r.centroids| <= digest.maxSize && r.centroids != []
  {
    hide Absorb, Compress, Shares, Arranged, WeightTo, MassTo, Sum, MinOf, MaxOf;
    AbsorbWidens(digest, values);
    AbsorbTotals(digest, values);
    ArrangedFacts(digest, values);
    var xs := Arranged(digest, values);
    CompressedFacts(xs, digest.maxSize, 0);
    var r := Absorb(digest, values);
    ExtremesBound(values);
    ArrangedRange(digest, values, r.min.value, r.max.value);
    CompressionKeepsRange(xs, Shares(digest.maxSize, 0, r.count), r.min.value, r.max.value);
  }

  // ----- the same batch in the order it was handed over

  /** The two streams of a merge: observations and centroids, the smaller head first, observations first on ties. */
  function Interleaved(digest: TDigest, values: seq<real>): (xs: seq<Centroid>)
    requires AllWhole(digest.centroids)
    ensures AllWhole(xs)
  {
    UnitsWhole(values);
    MergeKeepsTotals(Units(values), digest.centroids);
    MergeRuns(Units(values), digest.centroids)
  }

  /** What merge_sorted makes of values in any order: it takes the first for the least and the last for the greatest. */
  function AbsorbInOrder(digest: TDigest, values: seq<real>): TDigest
    requires digest.Valid()
  {
    CountSign(digest);
    if values == [] then digest else
      var xs := Interleaved(digest, values);
      var n := digest.count + |values| as real;
      var nonEmpty := digest.count > 0.0;
      var first, last := values[0], values[|values| - 1];
      TDigest(SortByMean(Compress(xs, Shares(digest.maxSize, 0, n))), digest.maxSize, Mass(xs), n,
              Some(if nonEmpty then Max(digest.max.value, last) else last),
              Some(if nonEmpty then Min(digest.min.value, first) else first))
  }

  lemma InterleavedTotals(digest: TDigest, values: seq<real>)
    requires digest.Valid()
    ensures Weight(Interleaved(digest, values)) == digest.count + |values| as real
    ensures Mass(Interleaved(digest, values)) == digest.sum + Sum(values)
  {
    MergeKeepsTotals(Units(values), digest.centroids);
    UnitTotals(values);
  }

  /** Ascending values are absorbed as their batch. */
  lemma InOrderIfAscending(digest: TDigest, values: seq<real>)
    requires digest.Valid() && Ascending(values)
    ensures AbsorbInOrder(digest, values) == Absorb(digest, values)
  {
    hide Compress, Shares, Sorted, Ascending, Arranged, Interleaved, SortByMean, MinOf, MaxOf, Mass, WeightTo, MassTo;
    if values != [] {
      InterleavedIsArranged(digest, values);
      ExtremesOfAscending(values);
      ClustersInOrder(digest, values, Shares(digest.maxSize, 0, digest.count + |values| as real));
    }
  }

  lemma ClustersInOrder(digest: TDigest, values: seq<real>, bounds: Bounds)
    requires digest.Valid()
    ensures SortByMean(Compress(Arranged(digest, values), bounds)) == Compress(Arranged(digest, values), bounds)
  {
    hide Compress, Arranged, Sorted, SortByMean;
    ArrangedFacts(digest, values);
    CompressionKeepsOrder(Arranged(digest, values), bounds);
    SortOfSorted(Compress(Arranged(digest, values), bounds));
  }

  lemma InterleavedIsArranged(digest: TDigest, values: seq<real>)
    requires digest.Valid() && Ascending(values)
    ensures Interleaved(digest, values) == Arranged(digest, values)
  {
    hide Compress, Ascending, MergeRuns, SortByMean, WeightTo, MassTo;
    SortedUnits(values);
    SortOfSorted(Units(values));
    SortOfSorted(digest.centroids);
    MergeOfSorts(Units(values), digest.centroids);
  }

  /** Values in any order keep count and sum exact, and the recorded minimum is the true one exactly when the first
      value is a least one or the digest has a smaller minimum already; likewise for the last value. */
  lemma InOrderExtremes(digest: TDigest, values: seq<real>)
    requires digest.Valid() && values != []
    ensures var r := AbsorbInOrder(digest, values);
      && r.count == digest.count + |values| as real && r.sum == digest.sum + Sum(values)
      && (r.min == Absorb(digest, values).min <==>
            values[0] == MinOf(values) || (digest.centroids != [] && digest.min.value <= MinOf(values)))
      && (r.max == Absorb(digest, values).max <==>
            values[|values| - 1] == MaxOf(values) || (digest.centroids != [] && digest.max.value >= MaxOf(values)))
  {
    hide Compress, Shares, Arranged, Interleaved, SortByMean, MinOf, MaxOf, WeightTo, MassTo, Sum;
    CountSign(digest);
    InterleavedTotals(digest, values);
    ExtremesBound(values);
  }

  /** What a compression keeps, and how large it can get: max_size clusters, plus one for each lagging limit. */
  lemma CompressedFacts(xs: seq<Centroid>, d: nat, lag: nat)
    requires d >= 1 && AllWhole(xs) && Sorted(xs)
    ensures var out := Compress(xs, Shares(d, lag, Weight(xs)));
            && AllWhole(out) && Sorted(out)
            && Weight(out) == Weight(xs) && Mass(out) == Mass(xs)
            && (out == [] <==> xs == [])
            && |out| <= d + lag && (d == 1 ==> |out| <= 1)
  {
    var bounds := Shares(d, lag, Weight(xs));
    CompressionConserves(xs, bounds);
    CompressionKeepsOrder(xs, bounds);
    CompressedSize(xs, d, lag);
  }

  lemma CompressedSize(xs: seq<Centroid>, d: nat, lag: nat)
    requires d >= 1 && AllWhole(xs)
    ensures var out := Compress(xs, Shares(d, lag, Weight(xs))); |out| <= d + lag && (d == 1 ==> |out| <= 1)
  {
    var bounds := Shares(d, lag, Weight(xs));
    LastShare(d, lag, Weight(xs));
    FullBoundIsLast(xs, bounds, d - 1 + lag);
    if d == 1 {
      FullBoundIsLast(xs, bounds, 0);
    }
  }

  lemma LastShare(d: nat, lag: nat, total: real)
    requires d >= 1
    ensures Share(d, lag, total, d - 1 + lag) == total
    ensures d == 1 ==> Share(d, lag, total, 0) == total
  {
    FullShare(d as real, total);
  }

  lemma ArrangedRange(digest: TDigest, values: seq<real>, lo: real, hi: real)
    requires digest.Valid() && values != []
    requires lo <= MinOf(values) && MaxOf(values) <= hi
    requires digest.centroids != [] ==> lo <= digest.min.value && digest.max.value <= hi
    ensures forall k :: 0 <= k < |Arranged(digest, values)| ==> lo <= Arranged(digest, values)[k].mean <= hi
  {
    hide SortByMean, MinOf, MaxOf, WeightTo, MassTo;
    var all := Units(values) + digest.centroids;
    ExtremesBound(values);
    forall k | 0 <= k < |all| ensures lo <= all[k].mean <= hi {
      if k < |values| {
        assert all[k] == Units(values)[k];
      } else {
        assert all[k] == digest.centroids[k - |values|];
      }
    }
    SortKeepsRange(all, lo, hi);
  }

  /** On equal means a merge takes the observations before the old centroids, and those in the order they had. */
  lemma TiesInOrder(digest: TDigest, values: seq<real>, m: real)
    requires digest.Valid()
    ensures WithMean(Arranged(digest, values), m) == WithMean(Units(values), m) + WithMean(digest.centroids, m)
  {
    SortIsStable(Units(values) + digest.centroids, m);
    WithMeanConcat(Units(values), digest.centroids, m);
  }

  /** A batch of observations is absorbed the same way in whatever order it arrives. */
  lemma AbsorbIgnoresArrival(digest: TDigest, values: seq<real>, others: seq<real>)
    requires digest.Valid() && multiset(values) == multiset(others)
    ensures Absorb(digest, values) == Absorb(digest, others)
  {
    CountSign(digest);
    SortIgnoresArrival(values, others, digest.centroids);
    assert |values| == |multiset(values)| == |multiset(others)| == |others|;
    if values != [] {
      SameExtremes(values, others);
    }
  }

  lemma SameExtremes(values: seq<real>, others: seq<real>)
    requires values != [] && others != [] && multiset(values) == multiset(others)
    ensures MinOf(values) == MinOf(others) && MaxOf(values) == MaxOf(others)
  {
    ExtremesBound(values);
    ExtremesBound(others);
    assert MinOf(values) in multiset(others) && MaxOf(values) in multiset(others);
    assert MinOf(others) in multiset(values) && MaxOf(others) in multiset(values);
    var i :| 0 <= i < |others| && others[i] == MinOf(values);
    var j :| 0 <= j < |values| && values[j] == MinOf(others);
    var k :| 0 <= k < |others| && others[k] == MaxOf(values);
    var l :| 0 <= l < |values| && values[l] == MaxOf(others);
  }

  // ----- the reference for merging digests

  function AllCentroids(digests: seq<TDigest>): seq<Centroid> {
    if digests == [] then [] else digests[0].centroids + AllCentroids(digests[1..])
  }

  /** The centroids of the digests follow each other in the order of the digests. */
  lemma {:induction false} AllCentroidsConcat(a: seq<TDigest>, b: seq<TDigest>)
    ensures AllCentroids(a + b) == AllCentroids(a) + AllCentroids(b)
    ensures |a| == 1 ==> AllCentroids(a) == a[0].centroids
  {
    if a == [] {
      assert a + b == b;
    } else {
      AllCentroidsConcat(a[1..], b);
      assert (a + b)[1..] == a[1..] + b;
      assert a[0].centroids + [] == a[0].centroids;
    }
  }

  function TotalCount(digests: seq<TDigest>): real {
    if digests == [] then 0.0 else digests[0].count + TotalCount(digests[1..])
  }

  function TotalSum(digests: seq<TDigest>): real {
    if digests == [] then 0.0 else digests[0].sum + TotalSum(digests[1..])
  }

  /** Least minimum over the non-empty digests; None stands for plus infinity. */
  function LeastMin(digests: seq<TDigest>): Option<real> {
    if digests == [] then None
    else if digests[0].centroids == [] then LeastMin(digests[1..])
    else Lower(digests[0].min, LeastMin(digests[1..]))
  }

  function GreatestMax(digests: seq<TDigest>): Option<real> {
    if digests == [] then None
    else if digests[0].centroids == [] then GreatestMax(digests[1..])
    else Higher(digests[0].max, GreatestMax(digests[1..]))
  }

  function Lower(a: Option<real>, b: Option<real>): Option<real> {
    if a.None? then b else if b.None? then a else Some(Min(a.value, b.value))
  }

  function Higher(a: Option<real>, b: Option<real>): Option<real> {
    if a.None? then b else if b.None? then a else Some(Max(a.value, b.value))
  }

  ghost predicate AllValid(digests: seq<TDigest>) {
    forall i :: 0 <= i < |digests| ==> digests[i].Valid()
  }

  lemma {:induction false} AllCentroidsWhole(digests: seq<TDigest>)
    requires AllValid(digests)
    ensures AllWhole(AllCentroids(digests))
    ensures Weight(AllCentroids(digests)) == TotalCount(digests)
    ensures Mass(AllCentroids(digests)) == TotalSum(digests)
  {
    if digests != [] {
      AllCentroidsWhole(digests[1..]);
      TotalsOfConcat(digests[0].centroids, AllCentroids(digests[1..]));
    }
  }

  /** The digest of all observations of all digests: sort all centroids stably, then compress them. When there
      is none, the result is the default digest, whose max_size is 100 whatever the inputs had. */
  function Combine(digests: seq<TDigest>): TDigest
    requires AllValid(digests)
  {
    var all := AllCentroids(digests);
    if all == [] then Default() else
      AllCentroidsWhole(digests);
      SortKeepsWhole(all);
      var xs := SortByMean(all);
      var d := digests[0].maxSize;
      TDigest(Compress(xs, Shares(d, 1, TotalCount(digests))), d, Mass(xs), TotalCount(digests),
              GreatestMax(digests), LeastMin(digests))
  }

  lemma {:induction false} ExtremesCover(digests: seq<TDigest>)
    requires AllValid(digests) && AllCentroids(digests) != []
    ensures LeastMin(digests).Some? && GreatestMax(digests).Some?
    ensures forall k :: 0 <= k < |AllCentroids(digests)| ==>
              LeastMin(digests).value <= AllCentroids(digests)[k].mean <= GreatestMax(digests).value
    ensures forall i :: 0 <= i < |digests| && digests[i].centroids != [] ==>
              LeastMin(digests).value <= digests[i].min.value && digests[i].max.value <= GreatestMax(digests).value
  {
    hide WeightTo, MassTo, Whole, Sorted;
    var rest := digests[1..];
    if AllCentroids(rest) != [] {
      ExtremesCover(rest);
    } else {
      NoExtremes(rest);
    }
    forall i | 0 <= i < |digests| && digests[i].centroids != []
      ensures LeastMin(digests).value <= digests[i].min.value && digests[i].max.value <= GreatestMax(digests).value
    {
      if i > 0 {
        assert digests[i] == rest[i - 1];
      }
    }
  }

  /** The extremes of a combination are those of some of its inputs. */
  lemma {:induction false} ExtremesAttained(digests: seq<TDigest>) returns (lo: nat, hi: nat)
    requires AllValid(digests) && AllCentroids(digests) != []
    ensures lo < |digests| && digests[lo].centroids != [] && digests[lo].min == LeastMin(digests)
    ensures hi < |digests| && digests[hi].centroids != [] && digests[hi].max == GreatestMax(digests)
  {
    var rest := digests[1..];
    lo, hi := 0, 0;
    if AllCentroids(rest) == [] {
      NoExtremes(rest);
    } else {
      var lo', hi' := ExtremesAttained(rest);
      if digests[0].centroids == [] || digests[0].min != LeastMin(digests) {
        lo := lo' + 1;
      }
      if digests[0].centroids == [] || digests[0].max != GreatestMax(digests) {
        hi := hi' + 1;
      }
    }
  }

  lemma {:induction false} NoExtremes(digests: seq<TDigest>)
    requires AllValid(digests) && AllCentroids(digests) == []
    ensures LeastMin(digests) == None && GreatestMax(digests) == None
    ensures forall i :: 0 <= i < |digests| ==> digests[i].centroids == []
  {
    if digests != [] {
      NoExtremes(digests[1..]);
      assert digests[0].centroids == [];
      forall i | 0 <= i < |digests| ensures digests[i].centroids == [] {
        if i > 0 {
          assert digests[i] == digests[1..][i - 1];
        }
      }
    }
  }

  /** Combining keeps the class invariant and adds up counts and sums. */
  lemma CombineKeepsInvariant(digests: seq<TDigest>)
    requires AllValid(digests)
    ensures var r := Combine(digests);
            && r.Valid()
            && r.count == TotalCount(digests) && r.sum == TotalSum(digests)
            && (r.centroids == [] <==> AllCentroids(digests) == [])
  {
    AllCentroidsWhole(digests);
    var all := AllCentroids(digests);
    if all != [] {
      var xs, d := SortByMean(all), digests[0].maxSize;
      SortKeepsWhole(all);
      SortByMeanSorts(all);
      SortKeepsTotals(all);
      CompressedFacts(xs, d, 1);
      ExtremesCover(digests);
      var lo, hi := LeastMin(digests).value, GreatestMax(digests).value;
      SortKeepsRange(all, lo, hi);
      CompressionKeepsRange(xs, Shares(d, 1, TotalCount(digests)), lo, hi);
    }
  }

  /** Combining may exceed the max_size of the first digest by one, and only when that is at least 2. */
  lemma CombineSize(digests: seq<TDigest>)
    requires AllValid(digests) && AllCentroids(digests) != []
    ensures digests != []
    ensures var d := digests[0].maxSize;
            && Combine(digests).maxSize == d
            && |Combine(digests).centroids| <= d + 1
            && (d == 1 ==> |Combine(digests).centroids| == 1)
  {
    AllCentroidsWhole(digests);
    var all := AllCentroids(digests);
    SortKeepsWhole(all);
    SortByMeanSorts(all);
    SortKeepsTotals(all);
    CompressedFacts(SortByMean(all), digests[0].maxSize, 1);
  }

  /** The result has the max_size of the first digest exactly when there is some centroid, or that is the default
      of 100 anyway. */
  lemma CombineMaxSize(digests: seq<TDigest>)
    requires AllValid(digests) && digests != []
    ensures Combine(digests).maxSize == digests[0].maxSize <==> AllCentroids(digests) != [] || digests[0].maxSize == 100
  {
  }

  /** One empty digest of max_size 7 combines to one of max_size 100. */
  lemma EmptyLosesMaxSize()
    ensures NewWithSize(7).Valid() && Combine([NewWithSize(7)]).maxSize == 100
  {
    var digests := [NewWithSize(7)];
    assert digests[1..] == [] && AllCentroids(digests) == [] + AllCentroids(digests[1..]);
  }

  // ----- the streaming pass

  /** The locals of a pass: finished clusters, the centroid that opened the current cluster, the pending total
      and weight it has not absorbed yet, all weight so far, and the sum of the finished clusters. */
  datatype Pass = Pass(compressed: seq<Centroid>, curr: Centroid, pendingTotal: real, pendingWeight: real, weightSoFar: real, sum: real)

  /** One input of a pass: it joins the current cluster or closes it. */
  function Feed(p: Pass, next: Centroid, bound: real): Pass
    requires p.curr.weight + p.pendingWeight != 0.0
  {
    var weightSoFar := p.weightSoFar + next.weight;
    if weightSoFar <= bound then
      p.(pendingTotal := p.pendingTotal + next.Total(), pendingWeight := p.pendingWeight + next.weight, weightSoFar := weightSoFar)
    else
      var (grown, total) := p.curr.Add(p.pendingTotal, p.pendingWeight);
      Pass(p.compressed + [grown], next, 0.0, 0.0, weightSoFar, p.sum + total)
  }

  /** The pass over the first i inputs. */
  function Run(xs: seq<Centroid>, i: nat, bounds: Bounds): (p: Pass)
    requires AllWhole(xs) && 1 <= i <= |xs|
    ensures p.curr.weight >= 1.0 && p.pendingWeight >= 0.0
  {
    if i == 1 then Pass([], xs[0], 0.0, 0.0, xs[0].weight, 0.0) else
      var p := Run(xs, i - 1, bounds);
      Feed(p, xs[i - 1], bounds(|p.compressed|))
  }

  lemma RunStart(xs: seq<Centroid>, bounds: Bounds)
    requires AllWhole(xs) && xs != []
    ensures Run(xs, 1, bounds) == Pass([], xs[0], 0.0, 0.0, xs[0].weight, 0.0)
  {
  }

  lemma RunNext(xs: seq<Centroid>, i: nat, bounds: Bounds)
    requires AllWhole(xs) && 1 <= i < |xs|
    ensures var p := Run(xs, i, bounds); Run(xs, i + 1, bounds) == Feed(p, xs[i], bounds(|p.compressed|))
  {
  }

  /** What a pass over the first i inputs means, for the cluster starts `cuts`. */
  ghost predicate Streaming(xs: seq<Centroid>, i: nat, p: Pass, cuts: seq<nat>, bounds: Bounds)
    requires AllWhole(xs)
  {
    && Clustered(xs, p.compressed, cuts, bounds)
    && var j := |p.compressed|;
       var start := cuts[j];
       && start < i <= |xs|
       && p.curr == xs[start]
       && p.pendingTotal == MassTo(xs, i) - MassTo(xs, start + 1)
       && p.pendingWeight == WeightTo(xs, i) - WeightTo(xs, start + 1)
       && p.weightSoFar == WeightTo(xs, i)
       && p.sum == MassTo(xs, start)
       && forall k :: start < k < i ==> Fits(xs, k, bounds(j))
  }

  /** Absorbing what is pending yields the pooled centroid of the run and the run's total. */
  lemma AddPools(xs: seq<Centroid>, start: nat, i: nat, pendingTotal: real, pendingWeight: real)
    requires AllWhole(xs) && start < i <= |xs|
    requires pendingTotal == MassTo(xs, i) - MassTo(xs, start + 1)
    requires pendingWeight == WeightTo(xs, i) - WeightTo(xs, start + 1)
    ensures xs[start].weight + pendingWeight > 0.0
    ensures xs[start].Add(pendingTotal, pendingWeight) == (Pool(xs, start, i), MassTo(xs, i) - MassTo(xs, start))
  {
    WeightGrows(xs, start, i);
    var c := xs[start];
    assert MassTo(xs, start + 1) == MassTo(xs, start) + c.Total();
    assert WeightTo(xs, start + 1) == WeightTo(xs, start) + c.weight;
    assert pendingTotal + c.Total() == MassTo(xs, i) - MassTo(xs, start);
    assert c.weight + pendingWeight == WeightTo(xs, i) - WeightTo(xs, start);
  }

  lemma FeedStreams(xs: seq<Centroid>, i: nat, p: Pass, cuts: seq<nat>, bounds: Bounds) returns (cuts': seq<nat>)
    requires AllWhole(xs) && i < |xs| && Streaming(xs, i, p, cuts, bounds)
    requires p.curr.weight + p.pendingWeight > 0.0
    ensures Streaming(xs, i + 1, Feed(p, xs[i], bounds(|p.compressed|)), cuts', bounds)
  {
    var j := |p.compressed|;
    if p.weightSoFar + xs[i].weight <= bounds(j) {
      cuts' := cuts;
    } else {
      cuts' := cuts + [i];
      AddPools(xs, cuts[j], i, p.pendingTotal, p.pendingWeight);
      assert !Fits(xs, i, bounds(j));
      AddCluster(xs, p.compressed, cuts, bounds, Pool(xs, cuts[j], i), i);
    }
  }

  lemma {:induction false} RunStreams(xs: seq<Centroid>, i: nat, bounds: Bounds) returns (cuts: seq<nat>)
    requires AllWhole(xs) && 1 <= i <= |xs|
    ensures Streaming(xs, i, Run(xs, i, bounds), cuts, bounds)
  {
    if i == 1 {
      cuts := [0];
    } else {
      cuts := RunStreams(xs, i - 1, bounds);
      cuts := FeedStreams(xs, i - 1, Run(xs, i - 1, bounds), cuts, bounds);
    }
  }

  /** The streaming pass computes the reference compression and the total of all inputs. */
  lemma RunCompresses(xs: seq<Centroid>, bounds: Bounds)
    requires AllWhole(xs) && xs != []
    ensures var p := Run(xs, |xs|, bounds);
            var (last, total) := p.curr.Add(p.pendingTotal, p.pendingWeight);
            p.compressed + [last] == Compress(xs, bounds) && p.sum + total == Mass(xs)
  {
    var p := Run(xs, |xs|, bounds);
    var cuts := RunStreams(xs, |xs|, bounds);
    var start := cuts[|p.compressed|];
    AddPools(xs, start, |xs|, p.pendingTotal, p.pendingWeight);
    var c := Pool(xs, start, |xs|);
    AddCluster(xs, p.compressed, cuts, bounds, c, |xs|);
    CompressionIsUnique(xs, p.compressed + [c], cuts + [|xs|], bounds);
  }
}
