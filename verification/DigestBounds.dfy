/** How fine and how large a digest can get: the resolution of its clusters, and the exact bound of
    merge_digests, whose second cluster reuses the limit of the first. */
module DigestBounds {
  import opened RealFacts
  import opened Centroids
  import opened ScaleFunction
  import opened Compression
  import opened TDigests
  import opened Values

  // ----- resolution of merge_sorted

  /** The room between neighbouring cluster limits, as a share of all weight. */
  function Room(d: nat, j: nat): real
    requires d >= 1
  {
    KToQ(j as real + 1.0, d as real) - KToQ(j as real, d as real)
  }

  /** A share of all weight. */
  function OfAll(share: real, xs: seq<Centroid>): real {
    share * Weight(xs)
  }

  lemma OfAllMono(a: real, b: real, xs: seq<Centroid>)
    requires a <= b && AllWhole(xs)
    ensures OfAll(a, xs) <= OfAll(b, xs)
  {
    WeightGrows(xs, 0, |xs|);
    MulMono(a, b, Weight(xs));
  }

  lemma OfAllPositive(a: real, xs: seq<Centroid>)
    requires a > 0.0 && AllWhole(xs) && xs != []
    ensures OfAll(a, xs) > 0.0
  {
    WeightGrows(xs, 0, |xs|);
    MulPos(a, Weight(xs));
  }

  lemma RoomPositive(d: nat, j: nat)
    requires j < d
    ensures Room(d, j) > 0.0
  {
    ScaleIncreases(j as real, j as real + 1.0, d as real);
  }

  lemma SharesApart(d: nat, j: nat, xs: seq<Centroid>)
    requires d >= 1
    ensures Share(d, 0, Weight(xs), j) - (if j == 0 then 0.0 else Share(d, 0, Weight(xs), j - 1)) == OfAll(Room(d, j), xs)
  {
    var total := Weight(xs);
    hide KToQ;
    ZeroShare(d as real, total);
    assert (j + 1) as real == j as real + 1.0;
    DistributeLeft(KToQ(j as real + 1.0, d as real), KToQ(j as real, d as real), total);
    assert j > 0 ==> Step(0, j - 1) == j;
  }

  lemma DistributeLeft(a: real, b: real, c: real)
    ensures (a - b) * c == a * c - b * c
  {
  }

  lemma AbsorbedBelowRoom(xs: seq<Centroid>, d: nat, j: nat)
    requires d >= 1 && AllWhole(xs) && Sorted(xs) && xs != []
    requires j < |Compress(xs, Shares(d, 0, Weight(xs)))|
    ensures var cuts := Cuts(xs, Shares(d, 0, Weight(xs)));
            && |cuts| == |Compress(xs, Shares(d, 0, Weight(xs)))| + 1 && cuts[j] < cuts[j + 1] <= |xs| && j < d
            && Absorbed(xs, cuts[j], cuts[j + 1]) < OfAll(Room(d, j), xs)
  {
    hide KToQ, Compress, Cuts, Room, Weight, OfAll, AllWhole, Sorted;
    CompressedFacts(xs, d, 0);
    RoomPositive(d, j);
    SharesApart(d, j, xs);
    ClusterRoom(xs, Shares(d, 0, Weight(xs)), j);
    OfAllPositive(Room(d, j), xs);
  }

  /** Cluster j of a merge absorbs less than the scale gives it after its first input, hence less than 2/d of all
      weight, and less and less toward either tail. */
  lemma ClusterResolution(xs: seq<Centroid>, d: nat, j: nat)
    requires d >= 1 && AllWhole(xs) && Sorted(xs) && xs != []
    requires j < |Compress(xs, Shares(d, 0, Weight(xs)))|
    ensures var cuts := Cuts(xs, Shares(d, 0, Weight(xs)));
            && |cuts| == |Compress(xs, Shares(d, 0, Weight(xs)))| + 1 && cuts[j] < cuts[j + 1] <= |xs| && j < d
            && var absorbed := Absorbed(xs, cuts[j], cuts[j + 1]);
            && absorbed < OfAll(Room(d, j), xs)
            && absorbed < OfAll(EvenRoom(d as real), xs)
            && absorbed < OfAll(TailRoom(j as real, d as real), xs)
            && absorbed < OfAll(TailRoom(d as real - j as real - 1.0, d as real), xs)
  {
    hide Room, EvenRoom, TailRoom, Compress, Cuts, Absorbed, AllWhole, Sorted, OfAll, Weight;
    AbsorbedBelowRoom(xs, d, j);
    RoomBounds(d, j);
    OfAllMono(Room(d, j), EvenRoom(d as real), xs);
    OfAllMono(Room(d, j), TailRoom(j as real, d as real), xs);
    OfAllMono(Room(d, j), TailRoom(d as real - j as real - 1.0, d as real), xs);
  }

  /** Where merge_digests has its limits one step behind, cluster j > 0 absorbs less than the scale gives to the cluster
      before it; the first one has its own room, and the second has none at all. */
  lemma LaggedClusterRoom(xs: seq<Centroid>, d: nat, j: nat)
    requires d >= 1 && AllWhole(xs) && Sorted(xs) && xs != []
    requires j < |Compress(xs, Shares(d, 1, Weight(xs)))|
    ensures var cuts := Cuts(xs, Shares(d, 1, Weight(xs)));
            && |cuts| == |Compress(xs, Shares(d, 1, Weight(xs)))| + 1 && cuts[j] < cuts[j + 1] <= |xs| && j <= d
            && (if j == 1 then cuts[j + 1] == cuts[j] + 1
                else Absorbed(xs, cuts[j], cuts[j + 1]) < OfAll(Room(d, if j == 0 then 0 else j - 1), xs))
  {
    hide KToQ, Compress, Cuts, Room, Weight, OfAll, AllWhole, Sorted;
    CompressedFacts(xs, d, 1);
    ClusterRoom(xs, Shares(d, 1, Weight(xs)), j);
    if j == 1 {
      SecondClusterIsSingle(xs, d);
    } else {
      var k := if j == 0 then 0 else j - 1;
      RoomPositive(d, k);
      SharesApart(d, k, xs);
      OfAllPositive(Room(d, k), xs);
      LaggedShares(d, j, xs);
    }
  }

  lemma LaggedShares(d: nat, j: nat, xs: seq<Centroid>)
    requires d >= 1 && j != 1
    ensures Shares(d, 1, Weight(xs))(j) == Shares(d, 0, Weight(xs))(if j == 0 then 0 else j - 1)
    ensures j >= 2 ==> Shares(d, 1, Weight(xs))(j - 1) == Shares(d, 0, Weight(xs))(j - 2)
  {
    hide KToQ, Weight;
    assert Step(1, j) == Step(0, if j == 0 then 0 else j - 1);
    assert j >= 2 ==> Step(1, j - 1) == Step(0, j - 2);
  }

  lemma RoomBounds(d: nat, j: nat)
    requires j < d
    ensures Room(d, j) <= EvenRoom(d as real)
    ensures Room(d, j) <= TailRoom(j as real, d as real)
    ensures Room(d, j) <= TailRoom(d as real - j as real - 1.0, d as real)
  {
    hide KToQ, EvenRoom, TailRoom;
    ScaleStep(j as real, d as real);
  }

  /** In merge_digests the second cluster is always a single input: it shares its limit with the first one, which
      was closed because that input did not fit. */
  lemma SecondClusterIsSingle(xs: seq<Centroid>, d: nat)
    requires d >= 1 && AllWhole(xs) && |Compress(xs, Shares(d, 1, Weight(xs)))| >= 2
    ensures var cuts := Cuts(xs, Shares(d, 1, Weight(xs))); |cuts| >= 3 && cuts[2] == cuts[1] + 1
  {
    var bounds := Shares(d, 1, Weight(xs));
    assert Step(1, 0) == Step(1, 1);
    assert bounds(0) == bounds(1);
    ClusterRoom(xs, bounds, 1);
    var cuts := Cuts(xs, bounds);
    WeightGrows(xs, cuts[1] + 1, cuts[2]);
  }

  // ----- the clusters of merged digests

  /** Absorbing values groups their units and the old centroids, in ascending order, by the limits of the scale: cluster
      j absorbs less than its room. */
  lemma AbsorbClusters(digest: TDigest, values: seq<real>, j: nat)
    requires digest.Valid() && values != [] && j < |Absorb(digest, values).centroids|
    ensures var xs, d, out := Arranged(digest, values), digest.maxSize, Absorb(digest, values).centroids;
      && Sorted(xs) && multiset(xs) == multiset(Units(values)) + multiset(digest.centroids)
      && var cuts := Cuts(xs, Shares(d, 0, Weight(xs)));
      && IsCompression(xs, out, cuts, Shares(d, 0, Weight(xs)))
      && |cuts| == |out| + 1 && cuts[j] < cuts[j + 1] <= |xs| && j < d
      && Absorbed(xs, cuts[j], cuts[j + 1]) < OfAll(Room(d, j), xs)
  {
    hide Absorb, Arranged, Compress, Cuts, Room, OfAll, Absorbed, Weight, Sorted, AllWhole, IsCompression, Shares;
    ArrangedFacts(digest, values);
    AbsorbTotals(digest, values);
    var xs := Arranged(digest, values);
    CompressObeysRule(xs, Shares(digest.maxSize, 0, Weight(xs)));
    ArrangedNotEmpty(xs, values, digest.centroids);
    AbsorbedBelowRoom(xs, digest.maxSize, j);
  }

  lemma ArrangedNotEmpty(xs: seq<Centroid>, values: seq<real>, cs: seq<Centroid>)
    requires values != [] && multiset(xs) == multiset(Units(values)) + multiset(cs)
    ensures xs != []
  {
    assert Units(values)[0] in multiset(xs);
  }

  /** Combining digests groups all their centroids, in ascending order, by the limits of the scale one step behind:
      the second cluster is a single centroid, and a later one absorbs less than the room of the cluster before it. */
  lemma CombineClusters(digests: seq<TDigest>, j: nat)
    requires AllValid(digests) && j < |Combine(digests).centroids|
    ensures digests != [] && AllWhole(SortByMean(AllCentroids(digests)))
    ensures var xs, d, out := SortByMean(AllCentroids(digests)), digests[0].maxSize, Combine(digests).centroids;
      && Sorted(xs) && multiset(xs) == multiset(AllCentroids(digests))
      && var cuts := Cuts(xs, Shares(d, 1, Weight(xs)));
      && IsCompression(xs, out, cuts, Shares(d, 1, Weight(xs)))
      && |cuts| == |out| + 1 && cuts[j] < cuts[j + 1] <= |xs| && j <= d
      && (if j == 1 then cuts[2] == cuts[1] + 1
          else Absorbed(xs, cuts[j], cuts[j + 1]) < OfAll(Room(d, if j == 0 then 0 else j - 1), xs))
  {
    hide Combine, Compress, Cuts, Room, OfAll, Absorbed, Weight, Sorted, AllWhole, IsCompression, Shares, SortByMean;
    hide TDigest.Valid;
    CombineCentroids(digests);
    var xs, d := SortByMean(AllCentroids(digests)), digests[0].maxSize;
    CompressObeysRule(xs, Shares(d, 1, Weight(xs)));
    LaggedClusterRoom(xs, d, j);
  }

  lemma CombineCentroids(digests: seq<TDigest>)
    requires AllValid(digests) && Combine(digests).centroids != []
    ensures digests != [] && digests[0].maxSize >= 1
    ensures var xs := SortByMean(AllCentroids(digests));
      && AllWhole(xs) && Sorted(xs) && xs != [] && multiset(xs) == multiset(AllCentroids(digests))
      && Combine(digests).centroids == Compress(xs, Shares(digests[0].maxSize, 1, Weight(xs)))
  {
    hide Compress, Shares, Weight, SortByMean;
    var all := AllCentroids(digests);
    AllCentroidsWhole(digests);
    SortKeepsWhole(all);
    SortByMeanSorts(all);
    SortKeepsTotals(all);
    assert all != [];
    assert all[0] in multiset(SortByMean(all));
  }

  // ----- the bound of merge_digests is exact

  lemma PoolOfOne(xs: seq<Centroid>, j: nat)
    requires AllWhole(xs) && j < |xs|
    ensures Pool(xs, j, j + 1) == xs[j]
  {
    WeightGrows(xs, j, j + 1);
    MulDiv(xs[j].mean, xs[j].weight);
    assert MassTo(xs, j + 1) - MassTo(xs, j) == xs[j].Total();
    assert WeightTo(xs, j + 1) - WeightTo(xs, j) == xs[j].weight;
  }

  ghost predicate NextMisfits(xs: seq<Centroid>, bounds: Bounds, j: nat) {
    j + 1 < |xs| ==> !Fits(xs, j + 1, bounds(j))
  }

  /** When no two neighbours fit together, compression changes nothing. */
  lemma NothingFits(xs: seq<Centroid>, bounds: Bounds)
    requires AllWhole(xs)
    requires forall j: nat :: NextMisfits(xs, bounds, j)
    ensures Compress(xs, bounds) == xs
  {
    var cuts := seq(|xs| + 1, (j: nat) => j);
    forall j: nat | j < |xs| ensures Cluster(xs, xs[j], cuts[j], cuts[j + 1], bounds(j)) {
      assert NextMisfits(xs, bounds, j);
      PoolOfOne(xs, j);
    }
    CompressionIsUnique(xs, xs, cuts, bounds);
  }

  /** k unit centroids with means 1 to k. */
  function Ladder(k: nat): (cs: seq<Centroid>)
    ensures |cs| == k
    ensures forall i :: 0 <= i < k ==> cs[i] == Centroid((i + 1) as real, 1.0)
  {
    seq(k, i => Centroid((i + 1) as real, 1.0))
  }

  function Zeros(n: nat): (vs: seq<real>)
    ensures |vs| == n && forall i :: 0 <= i < n ==> vs[i] == 0.0
  {
    seq(n, i => 0.0)
  }

  /** Digests of max_size d of one observation each: 1 to k. */
  function Light(d: nat, k: nat): (digests: seq<TDigest>)
    requires d >= 1
    ensures |digests| == k
  {
    NothingValid(d);
    seq(k, i => Absorb(NewWithSize(d), [(i + 1) as real]))
  }

  lemma NothingValid(d: nat)
    requires d >= 1
    ensures NewWithSize(d).Valid()
  {
  }

  /** A digest of many zeros, which has one centroid because its max_size is 1. */
  function HeavyDigest(d: nat): TDigest {
    NothingValid(1);
    Absorb(NewWithSize(1), Zeros(d * d * d))
  }

  /** Digests built from observations, the first of max_size d: one each of 1 to d, and one of many zeros. */
  function HeavyAndLight(d: nat): (digests: seq<TDigest>)
    requires d >= 1
    ensures |digests| == d + 1
  {
    Light(d, d) + [HeavyDigest(d)]
  }

  lemma {:induction false} WeightFromHeavy(xs: seq<Centroid>, n: nat)
    requires 1 <= n <= |xs| && forall i :: 1 <= i < |xs| ==> xs[i].weight == 1.0
    ensures WeightTo(xs, n) == xs[0].weight + (n - 1) as real
  {
    if n > 1 {
      WeightFromHeavy(xs, n - 1);
    } else {
      assert WeightTo(xs, 0) == 0.0;
    }
  }

  /** No limit before the last reaches the weight of the heavy centroid. */
  lemma LimitsBelowHeavy(d: nat, k: nat)
    requires d >= 2 && 1 <= k < d
    ensures KToQ(k as real, d as real) * ((d * d * d) as real + d as real) < (d * d * d) as real
  {
    var r := d as real;
    var h, q := 1.0 / r, KToQ(k as real, r);
    LastStep(r);
    if k < d - 1 {
      ScaleIncreases(k as real, r - 1.0, r);
    }
    hide KToQ;
    DivMul(1.0, r);
    assert q <= 1.0 - 2.0 * (h * h);
    assert (d * d * d) as real == r * r * r;
    HeavyBound(r, h, q);
  }

  lemma HeavyBound(r: real, h: real, q: real)
    requires r >= 2.0 && h * r == 1.0 && q <= 1.0 - 2.0 * (h * h)
    ensures q * (r * r * r + r) < r * r * r
  {
    var total := r * r * r + r;
    MulPos(r, r);
    MulPos(r * r, r);
    HeavyArithmetic(r, h);
    calc {
      q * total;
    <= { MulMono(q, 1.0 - 2.0 * (h * h), total); }
      (1.0 - 2.0 * (h * h)) * total;
    ==
      total - 2.0 * (h * h) * total;
    <
      r * r * r;
    }
  }

  lemma HeavyArithmetic(r: real, h: real)
    requires r >= 2.0 && h * r == 1.0
    ensures 2.0 * (h * h) * (r * r * r + r) > r
  {
    assert (h * h) * (r * r * r + r) == (h * r) * (h * r) * r + (h * r) * h;
    assert h > 0.0 by {
      if h <= 0.0 {
        MulMono(h, 0.0, r);
      }
    }
  }

  function Heavy(d: nat): seq<Centroid> {
    [Centroid(0.0, (d * d * d) as real)]
  }

  lemma LightDigest(d: nat, v: real)
    requires d >= 1
    ensures NewWithSize(d).Valid()
    ensures var r := Absorb(NewWithSize(d), [v]);
      r.Valid() && r.maxSize == d && r.count == 1.0 && r.centroids == [Centroid(v, 1.0)]
  {
    NothingValid(d);
    AbsorbKeepsInvariant(NewWithSize(d), [v]);
    assert Sum([v]) == v;
    hide Absorb;
    OneCentroid(Absorb(NewWithSize(d), [v]), v);
  }

  /** A weight of 1 makes one centroid; a single centroid holds the whole count, with the mean of all. */
  lemma OneCentroid(r: TDigest, v: real)
    requires r.Valid() && r.centroids != [] && (|r.centroids| == 1 || r.count == 1.0) && r.sum == v * r.count
    ensures r.centroids == [Centroid(v, r.count)]
  {
    var xs := r.centroids;
    WeightGrows(xs, 0, 1);
    WeightGrows(xs, 1, |xs|);
    assert |xs| == 1 && xs == [xs[0]];
    SingletonTotals(xs[0]);
    assert xs[0].mean * xs[0].weight == v * xs[0].weight;
    MulDiv(xs[0].mean, xs[0].weight);
    MulDiv(v, xs[0].weight);
  }

  lemma {:induction false} ZerosSum(n: nat)
    ensures Sum(Zeros(n)) == 0.0
  {
    if n > 0 {
      ZerosSum(n - 1);
      assert Zeros(n)[1..] == Zeros(n - 1);
    }
  }

  lemma HeavyDigestIs(d: nat)
    requires d >= 1
    ensures HeavyDigest(d).Valid() && HeavyDigest(d).maxSize == 1
    ensures HeavyDigest(d).centroids == Heavy(d) && HeavyDigest(d).count == (d * d * d) as real
  {
    CubePositive(d);
    NothingValid(1);
    AbsorbKeepsInvariant(NewWithSize(1), Zeros(d * d * d));
    ZerosSum(d * d * d);
    hide Absorb, Zeros;
    OneCentroid(HeavyDigest(d), 0.0);
  }

  lemma {:induction false} LightInputs(d: nat, k: nat, rest: seq<TDigest>)
    requires d >= 1 && k <= d && AllValid(rest)
    ensures AllValid(Light(d, d)[k..] + rest)
    ensures AllCentroids(Light(d, d)[k..] + rest) == Ladder(d)[k..] + AllCentroids(rest)
    decreases d - k
  {
    hide Absorb, TDigest.Valid;
    if k == d {
      assert Light(d, d)[k..] + rest == rest && Ladder(d)[k..] == [];
    } else {
      LightInputs(d, k + 1, rest);
      LightDigest(d, (k + 1) as real);
      var all := Light(d, d)[k..] + rest;
      assert all[1..] == Light(d, d)[k + 1..] + rest && all == [all[0]] + all[1..];
      assert Ladder(d)[k..] == [Ladder(d)[k]] + Ladder(d)[k + 1..];
    }
  }

  lemma HeavyAndLightValid(d: nat)
    requires d >= 2
    ensures AllValid(HeavyAndLight(d))
    ensures AllCentroids(HeavyAndLight(d)) == Ladder(d) + Heavy(d)
  {
    var heavy := [HeavyDigest(d)];
    HeavyDigestIs(d);
    assert heavy[1..] == [] && AllCentroids(heavy) == Heavy(d) + [];
    hide HeavyDigest, Absorb, TDigest.Valid;
    LightInputs(d, 0, heavy);
    assert Light(d, d)[0..] == Light(d, d) && Ladder(d)[0..] == Ladder(d);
  }

  lemma HeavyAndLightSizes(d: nat, i: nat)
    requires d >= 1 && i < |HeavyAndLight(d)|
    ensures |HeavyAndLight(d)[i].centroids| <= HeavyAndLight(d)[i].maxSize
    ensures i < d ==> HeavyAndLight(d)[i].maxSize == d
  {
    hide HeavyDigest, Absorb, TDigest.Valid;
    if i < d {
      LightDigest(d, (i + 1) as real);
    } else {
      HeavyDigestIs(d);
    }
  }

  lemma HeavyAndLightWeights(d: nat)
    requires d >= 2
    ensures AllWhole(Heavy(d) + Ladder(d)) && Sorted(Heavy(d) + Ladder(d))
    ensures Weight(Ladder(d) + Heavy(d)) == (d * d * d) as real + d as real
  {
    CubePositive(d);
    IntIsWhole(d * d * d);
    IntIsWhole(1);
    TotalsOfConcat(Ladder(d), Heavy(d));
    SingletonTotals(Heavy(d)[0]);
    LadderWeight(d, d);
  }

  lemma HeavyAndLightInputs(d: nat)
    requires d >= 2
    ensures AllValid(HeavyAndLight(d))
    ensures AllCentroids(HeavyAndLight(d)) == Ladder(d) + Heavy(d)
    ensures TotalCount(HeavyAndLight(d)) == (d * d * d) as real + d as real
  {
    hide HeavyAndLight, Ladder, Heavy, AllCentroids, TotalCount, TDigest.Valid, WeightTo;
    HeavyAndLightValid(d);
    HeavyAndLightWeights(d);
    AllCentroidsWhole(HeavyAndLight(d));
  }

  /** The heavy centroid goes first. */
  lemma HeavyAndLightSorted(d: nat)
    requires d >= 2
    ensures SortByMean(Ladder(d) + Heavy(d)) == Heavy(d) + Ladder(d)
  {
    hide SortByMean;
    SortOfSorted(Ladder(d));
    SortOfSorted(Heavy(d));
    MergeOfSorts(Ladder(d), Heavy(d));
    assert Heavy(d)[1..] == [];
    assert MergeRuns(Ladder(d), []) == Ladder(d);
  }

  lemma {:induction false} LadderWeight(d: nat, n: nat)
    requires n <= d
    ensures WeightTo(Ladder(d), n) == n as real
  {
    if n > 0 {
      LadderWeight(d, n - 1);
    }
  }

  lemma NoneFitsHeavyAndLight(d: nat, j: nat)
    requires d >= 2
    ensures NextMisfits(Heavy(d) + Ladder(d), Shares(d, 1, (d * d * d) as real + d as real), j)
  {
    if j + 1 < d + 1 {
      WeightFromHeavy(Heavy(d) + Ladder(d), j + 2);
      LimitsBelowHeavy(d, Step(1, j));
    }
  }

  lemma HeavyAndLightCompress(d: nat)
    requires d >= 2
    ensures AllValid(HeavyAndLight(d))
    ensures |Combine(HeavyAndLight(d)).centroids| == d + 1
  {
    hide KToQ, NextMisfits, Shares, Sorted, AllWhole, AllValid, TotalCount, AllCentroids, HeavyAndLight, Ladder;
    hide SortByMean, Compress, Mass, GreatestMax, LeastMin;
    HeavyAndLightInputs(d);
    HeavyAndLightWeights(d);
    HeavyAndLightSorted(d);
    var xs := Heavy(d) + Ladder(d);
    var bounds := Shares(d, 1, (d * d * d) as real + d as real);
    forall j: nat ensures NextMisfits(xs, bounds, j) {
      NoneFitsHeavyAndLight(d, j);
    }
    NothingFits(xs, bounds);
    HeavyAndLightSizes(d, 0);
  }

  lemma CubePositive(d: nat)
    requires d >= 1
    ensures d * d * d >= 1
  {
    assert d * d >= 1;
  }

  /** Well-formed inputs of merge_digests whose first digest has max_size d. */
  ghost predicate Mergeable(digests: seq<TDigest>, d: nat) {
    && AllValid(digests) && AllCentroids(digests) != [] && digests != [] && digests[0].maxSize == d
    && forall i :: 0 <= i < |digests| ==> |digests[i].centroids| <= digests[i].maxSize
  }

  /** merge_digests always stays within max_size exactly when max_size is 1; for every larger one it can end up
      with one centroid too many. */
  lemma MergeDigestsHoldsMaxSize(d: nat)
    requires d >= 1
    ensures (forall digests :: Mergeable(digests, d) ==> |Combine(digests).centroids| <= d) <==> d == 1
  {
    if d == 1 {
      forall digests | Mergeable(digests, d) ensures |Combine(digests).centroids| <= d {
        CombineSize(digests);
      }
    } else {
      HeavyAndLightCompress(d);
      HeavyAndLightMergeable(d);
      hide *;
    }
  }

  lemma HeavyAndLightMergeable(d: nat)
    requires d >= 2
    ensures Mergeable(HeavyAndLight(d), d)
  {
    hide HeavyAndLight, AllValid, AllCentroids, Ladder;
    HeavyAndLightValid(d);
    assert AllCentroids(HeavyAndLight(d)) == Ladder(d) + Heavy(d);
    forall i | 0 <= i < |HeavyAndLight(d)|
      ensures |HeavyAndLight(d)[i].centroids| <= HeavyAndLight(d)[i].maxSize
    {
      HeavyAndLightSizes(d, i);
    }
    HeavyAndLightSizes(d, 0);
  }
}
