/** What one compression pass of the t-digest does to a sorted list of centroids (the two loops that share
    one rule, tdigest.rs merge_sorted and merge_digests), stated on the whole list for any sequence of cluster
    bounds, and what follows from it: conservation, order, size and resolution. */
module Compression {
  import opened RealFacts
  import opened Centroids

  /** The weight up to which each cluster may be filled, by cluster number. */
  type Bounds = nat -> real

  /** The list up to and including position p stays within the bound. */
  predicate Fits(xs: seq<Centroid>, p: nat, bound: real)
    requires p < |xs|
  {
    WeightTo(xs, p + 1) <= bound
  }

  /** The centroid that stands for the inputs from a up to, not including, b. */
  function Pool(xs: seq<Centroid>, a: nat, b: nat): Centroid
    requires AllWhole(xs) && a < b <= |xs|
  {
    WeightGrows(xs, a, b);
    Mean(MassTo(xs, b) - MassTo(xs, a), WeightTo(xs, b) - WeightTo(xs, a))
  }

  lemma MeanTotal(total: real, weight: real)
    requires weight != 0.0
    ensures Mean(total, weight).Total() == total
  {
    DivMul(total, weight);
  }

  // ----- the reference definition: cut the list cluster by cluster

  /** First position from p on whose centroid would overfill the cluster. */
  function ClusterEnd(xs: seq<Centroid>, p: nat, bound: real): (e: nat)
    requires p <= |xs|
    ensures p <= e <= |xs|
    ensures forall k :: p <= k < e ==> Fits(xs, k, bound)
    ensures e < |xs| ==> !Fits(xs, e, bound)
    decreases |xs| - p
  {
    if p == |xs| || !Fits(xs, p, bound) then p else ClusterEnd(xs, p + 1, bound)
  }

  function CompressFrom(xs: seq<Centroid>, start: nat, j: nat, bounds: Bounds): seq<Centroid>
    requires AllWhole(xs) && start <= |xs|
    decreases |xs| - start
  {
    if start == |xs| then [] else
      var e := ClusterEnd(xs, start + 1, bounds(j));
      [Pool(xs, start, e)] + CompressFrom(xs, e, j + 1, bounds)
  }

  function CutsFrom(xs: seq<Centroid>, start: nat, j: nat, bounds: Bounds): (cuts: seq<nat>)
    requires start <= |xs|
    ensures |cuts| >= 1 && cuts[0] == start
    decreases |xs| - start
  {
    if start == |xs| then [start] else
      [start] + CutsFrom(xs, ClusterEnd(xs, start + 1, bounds(j)), j + 1, bounds)
  }

  function Compress(xs: seq<Centroid>, bounds: Bounds): seq<Centroid>
    requires AllWhole(xs)
  {
    CompressFrom(xs, 0, 0, bounds)
  }

  /** Where the clusters of the reference result begin, and the end of the list. */
  function Cuts(xs: seq<Centroid>, bounds: Bounds): seq<nat> {
    CutsFrom(xs, 0, 0, bounds)
  }

  // ----- the relation that a streaming pass establishes

  /** Cluster j is a run of inputs, filled as far as its bound allows and closed only by an input that would
      overfill it. */
  ghost predicate Cluster(xs: seq<Centroid>, c: Centroid, a: nat, b: nat, bound: real)
    requires AllWhole(xs)
  {
    && a < b <= |xs|
    && c == Pool(xs, a, b)
    && (forall p :: a < p < b ==> Fits(xs, p, bound))
    && (b < |xs| ==> !Fits(xs, b, bound))
  }

  /** The clusters follow each other; the first one has number n. */
  ghost predicate ClusteredFrom(xs: seq<Centroid>, out: seq<Centroid>, cuts: seq<nat>, bounds: Bounds, n: nat)
    requires AllWhole(xs)
  {
    && |cuts| == |out| + 1
    && forall j: nat {:trigger out[j]} :: j < |out| ==> Cluster(xs, out[j], cuts[j], cuts[j + 1], bounds(n + j))
  }

  /** The clusters follow each other from the start of the list. */
  ghost predicate Clustered(xs: seq<Centroid>, out: seq<Centroid>, cuts: seq<nat>, bounds: Bounds)
    requires AllWhole(xs)
  {
    ClusteredFrom(xs, out, cuts, bounds, 0) && cuts[0] == 0
  }

  /** The clusters cover the whole list. */
  ghost predicate IsCompression(xs: seq<Centroid>, out: seq<Centroid>, cuts: seq<nat>, bounds: Bounds)
    requires AllWhole(xs)
  {
    Clustered(xs, out, cuts, bounds) && cuts[|out|] == |xs|
  }

  lemma {:induction false} CutsOrdered(xs: seq<Centroid>, out: seq<Centroid>, cuts: seq<nat>, bounds: Bounds, i: nat, j: nat)
    requires AllWhole(xs) && Clustered(xs, out, cuts, bounds)
    requires i <= j <= |out|
    ensures cuts[i] + (j - i) <= cuts[j] <= |xs|
    decreases j
  {
    if j > 0 {
      assert Cluster(xs, out[j - 1], cuts[j - 1], cuts[j], bounds(j - 1));
    }
    if i < j {
      CutsOrdered(xs, out, cuts, bounds, i, j - 1);
    }
  }

  lemma ClusterEndIs(xs: seq<Centroid>, c: Centroid, a: nat, b: nat, bound: real)
    requires AllWhole(xs) && Cluster(xs, c, a, b, bound)
    ensures ClusterEnd(xs, a + 1, bound) == b
  {
  }

  lemma FirstCluster(xs: seq<Centroid>, c: Centroid, a: nat, b: nat, bounds: Bounds, j: nat)
    requires AllWhole(xs) && Cluster(xs, c, a, b, bounds(j))
    ensures CompressFrom(xs, a, j, bounds) == [c] + CompressFrom(xs, b, j + 1, bounds)
    ensures CutsFrom(xs, a, j, bounds) == [a] + CutsFrom(xs, b, j + 1, bounds)
  {
    ClusterEndIs(xs, c, a, b, bounds(j));
  }

  lemma {:induction false} TailIsCompressed(xs: seq<Centroid>, out: seq<Centroid>, cuts: seq<nat>, bounds: Bounds, j: nat)
    requires AllWhole(xs) && IsCompression(xs, out, cuts, bounds)
    requires j <= |out|
    ensures cuts[j] <= |xs|
    ensures out[j..] == CompressFrom(xs, cuts[j], j, bounds)
    ensures cuts[j..] == CutsFrom(xs, cuts[j], j, bounds)
    decreases |out| - j
  {
    hide Cluster, ClusterEnd, Whole, Pool;
    if j == |out| {
      assert CompressFrom(xs, |xs|, j, bounds) == [] && CutsFrom(xs, |xs|, j, bounds) == [|xs|];
    } else {
      hide CompressFrom, CutsFrom;
      TailIsCompressed(xs, out, cuts, bounds, j + 1);
      FirstCluster(xs, out[j], cuts[j], cuts[j + 1], bounds, j);
      assert out[j..] == [out[j]] + out[j + 1..];
      assert cuts[j..] == [cuts[j]] + cuts[j + 1..];
    }
  }

  /** The rule leaves no choice: every result that obeys it is the reference result. */
  lemma CompressionIsUnique(xs: seq<Centroid>, out: seq<Centroid>, cuts: seq<nat>, bounds: Bounds)
    requires AllWhole(xs) && IsCompression(xs, out, cuts, bounds)
    ensures out == Compress(xs, bounds)
    ensures cuts == Cuts(xs, bounds)
  {
    TailIsCompressed(xs, out, cuts, bounds, 0);
    assert out[0..] == out && cuts[0..] == cuts;
  }

  lemma AddCluster(xs: seq<Centroid>, out: seq<Centroid>, cuts: seq<nat>, bounds: Bounds, c: Centroid, e: nat)
    requires AllWhole(xs) && Clustered(xs, out, cuts, bounds)
    requires Cluster(xs, c, cuts[|out|], e, bounds(|out|))
    ensures Clustered(xs, out + [c], cuts + [e], bounds)
  {
    forall j: nat | j < |out| + 1
      ensures Cluster(xs, (out + [c])[j], (cuts + [e])[j], (cuts + [e])[j + 1], bounds(j))
    {
      if j < |out| {
        assert Cluster(xs, out[j], cuts[j], cuts[j + 1], bounds(j));
      }
    }
  }

  lemma PrependCluster(xs: seq<Centroid>, c: Centroid, start: nat, out: seq<Centroid>, cuts: seq<nat>, bounds: Bounds, n: nat)
    requires AllWhole(xs) && ClusteredFrom(xs, out, cuts, bounds, n + 1)
    requires Cluster(xs, c, start, cuts[0], bounds(n))
    ensures ClusteredFrom(xs, [c] + out, [start] + cuts, bounds, n)
  {
    forall j: nat | j < |out| + 1
      ensures Cluster(xs, ([c] + out)[j], ([start] + cuts)[j], ([start] + cuts)[j + 1], bounds(n + j))
    {
      if j > 0 {
        assert Cluster(xs, out[j - 1], cuts[j - 1], cuts[j], bounds(n + 1 + (j - 1)));
      }
    }
  }

  lemma {:induction false} SuffixObeysRule(xs: seq<Centroid>, start: nat, n: nat, bounds: Bounds)
    requires AllWhole(xs) && start <= |xs|
    ensures var out, cuts := CompressFrom(xs, start, n, bounds), CutsFrom(xs, start, n, bounds);
            ClusteredFrom(xs, out, cuts, bounds, n) && cuts[|out|] == |xs|
    decreases |xs| - start
  {
    if start < |xs| {
      var e := ClusterEnd(xs, start + 1, bounds(n));
      SuffixObeysRule(xs, e, n + 1, bounds);
      PrependCluster(xs, Pool(xs, start, e), start, CompressFrom(xs, e, n + 1, bounds), CutsFrom(xs, e, n + 1, bounds), bounds, n);
    }
  }

  /** The reference result obeys the rule. */
  lemma CompressObeysRule(xs: seq<Centroid>, bounds: Bounds)
    requires AllWhole(xs)
    ensures IsCompression(xs, Compress(xs, bounds), Cuts(xs, bounds), bounds)
  {
    SuffixObeysRule(xs, 0, 0, bounds);
  }

  // ----- conservation

  lemma PoolTotal(xs: seq<Centroid>, a: nat, b: nat)
    requires AllWhole(xs) && a < b <= |xs|
    ensures Pool(xs, a, b).Total() == MassTo(xs, b) - MassTo(xs, a)
    ensures Pool(xs, a, b).weight == WeightTo(xs, b) - WeightTo(xs, a)
  {
    WeightGrows(xs, a, b);
    MeanTotal(MassTo(xs, b) - MassTo(xs, a), WeightTo(xs, b) - WeightTo(xs, a));
  }

  lemma PoolWhole(xs: seq<Centroid>, a: nat, b: nat)
    requires AllWhole(xs) && a < b <= |xs|
    ensures Whole(Pool(xs, a, b).weight)
  {
    PoolTotal(xs, a, b);
    WeightGrows(xs, a, b);
    WholeTotals(xs, a);
    WholeTotals(xs, b);
    WholeDifference(WeightTo(xs, b), WeightTo(xs, a));
  }

  /** The first j clusters hold exactly the weight and mass of the inputs they cover. */
  lemma {:induction false} ClustersConserve(xs: seq<Centroid>, out: seq<Centroid>, cuts: seq<nat>, bounds: Bounds, j: nat)
    requires AllWhole(xs) && Clustered(xs, out, cuts, bounds)
    requires j <= |out|
    ensures cuts[j] <= |xs|
    ensures WeightTo(out, j) == WeightTo(xs, cuts[j])
    ensures MassTo(out, j) == MassTo(xs, cuts[j])
  {
    if j > 0 {
      ClustersConserve(xs, out, cuts, bounds, j - 1);
      assert Cluster(xs, out[j - 1], cuts[j - 1], cuts[j], bounds(j - 1));
      PoolTotal(xs, cuts[j - 1], cuts[j]);
    }
  }

  /** A compression neither creates nor loses weight or mass, and its weights are still whole. */
  lemma CompressionConserves(xs: seq<Centroid>, bounds: Bounds)
    requires AllWhole(xs)
    ensures Weight(Compress(xs, bounds)) == Weight(xs)
    ensures Mass(Compress(xs, bounds)) == Mass(xs)
    ensures AllWhole(Compress(xs, bounds))
    ensures Compress(xs, bounds) == [] <==> xs == []
  {
    var out, cuts := Compress(xs, bounds), Cuts(xs, bounds);
    CompressObeysRule(xs, bounds);
    ClustersConserve(xs, out, cuts, bounds, |out|);
    forall j: nat | j < |out| ensures Whole(out[j].weight) {
      assert Cluster(xs, out[j], cuts[j], cuts[j + 1], bounds(j));
      PoolWhole(xs, cuts[j], cuts[j + 1]);
    }
  }

  // ----- order

  function Scaled(c: real, w: real): real {
    c * w
  }

  lemma {:induction false} MassBetween(xs: seq<Centroid>, a: nat, b: nat, lo: real, hi: real)
    requires AllWhole(xs) && a <= b <= |xs|
    requires forall k :: a <= k < b ==> lo <= xs[k].mean <= hi
    ensures Scaled(lo, WeightTo(xs, b) - WeightTo(xs, a)) <= MassTo(xs, b) - MassTo(xs, a)
    ensures MassTo(xs, b) - MassTo(xs, a) <= Scaled(hi, WeightTo(xs, b) - WeightTo(xs, a))
    decreases b
  {
    hide Scaled, Centroid.Total;
    if a < b {
      MassBetween(xs, a, b - 1, lo, hi);
      var c := xs[b - 1];
      TotalBetween(c, lo, hi);
      ScaledSum(lo, WeightTo(xs, b - 1) - WeightTo(xs, a), c.weight);
      ScaledSum(hi, WeightTo(xs, b - 1) - WeightTo(xs, a), c.weight);
    } else {
      ScaledZero(lo);
      ScaledZero(hi);
    }
  }

  lemma TotalBetween(c: Centroid, lo: real, hi: real)
    requires Whole(c.weight) && lo <= c.mean <= hi
    ensures Scaled(lo, c.weight) <= c.Total() <= Scaled(hi, c.weight)
  {
    MulMono(lo, c.mean, c.weight);
    MulMono(c.mean, hi, c.weight);
  }

  lemma ScaledSum(c: real, a: real, b: real)
    ensures Scaled(c, a + b) == Scaled(c, a) + Scaled(c, b)
  {
  }

  lemma ScaledZero(c: real)
    ensures Scaled(c, 0.0) == 0.0
  {
  }

  /** The mean of a pooled run lies between any bounds of the means in the run. */
  lemma PoolBetween(xs: seq<Centroid>, a: nat, b: nat, lo: real, hi: real)
    requires AllWhole(xs) && a < b <= |xs|
    requires forall k :: a <= k < b ==> lo <= xs[k].mean <= hi
    ensures lo <= Pool(xs, a, b).mean <= hi
  {
    hide Scaled;
    MassBetween(xs, a, b, lo, hi);
    WeightGrows(xs, a, b);
    MeanBetween(MassTo(xs, b) - MassTo(xs, a), WeightTo(xs, b) - WeightTo(xs, a), lo, hi);
  }

  lemma MeanBetween(mass: real, weight: real, lo: real, hi: real)
    requires weight > 0.0 && Scaled(lo, weight) <= mass <= Scaled(hi, weight)
    ensures lo <= Mean(mass, weight).mean <= hi
  {
    DivAbove(mass, lo, weight);
    DivBelow(mass, hi, weight);
  }

  /** Cluster j of a sorted list lies between its own first and last input. */
  lemma ClusterBetweenInputs(xs: seq<Centroid>, bounds: Bounds, j: nat)
    requires AllWhole(xs) && Sorted(xs) && j < |Compress(xs, bounds)|
    ensures var cuts := Cuts(xs, bounds);
            && |cuts| == |Compress(xs, bounds)| + 1
            && cuts[j] < cuts[j + 1] <= |xs|
            && xs[cuts[j]].mean <= Compress(xs, bounds)[j].mean <= xs[cuts[j + 1] - 1].mean
  {
    var out, cuts := Compress(xs, bounds), Cuts(xs, bounds);
    CompressObeysRule(xs, bounds);
    assert Cluster(xs, out[j], cuts[j], cuts[j + 1], bounds(j));
    PoolBetween(xs, cuts[j], cuts[j + 1], xs[cuts[j]].mean, xs[cuts[j + 1] - 1].mean);
  }

  /** Clusters of a sorted list come out sorted. */
  lemma CompressionKeepsOrder(xs: seq<Centroid>, bounds: Bounds)
    requires AllWhole(xs) && Sorted(xs)
    ensures Sorted(Compress(xs, bounds))
  {
    var out, cuts := Compress(xs, bounds), Cuts(xs, bounds);
    CompressObeysRule(xs, bounds);
    forall i: nat, j: nat | i < j < |out| ensures out[i].mean <= out[j].mean {
      ClusterBetweenInputs(xs, bounds, i);
      ClusterBetweenInputs(xs, bounds, j);
      CutsOrdered(xs, out, cuts, bounds, i + 1, j);
      assert xs[cuts[i + 1] - 1].mean <= xs[cuts[j]].mean;
    }
  }

  /** Bounds of the input means bound the output means. */
  lemma CompressionKeepsRange(xs: seq<Centroid>, bounds: Bounds, lo: real, hi: real)
    requires AllWhole(xs)
    requires forall k :: 0 <= k < |xs| ==> lo <= xs[k].mean <= hi
    ensures forall j :: 0 <= j < |Compress(xs, bounds)| ==> lo <= Compress(xs, bounds)[j].mean <= hi
  {
    var out, cuts := Compress(xs, bounds), Cuts(xs, bounds);
    CompressObeysRule(xs, bounds);
    forall j: nat | j < |out| ensures lo <= out[j].mean <= hi {
      assert Cluster(xs, out[j], cuts[j], cuts[j + 1], bounds(j));
      PoolBetween(xs, cuts[j], cuts[j + 1], lo, hi);
    }
  }

  // ----- size

  /** A cluster whose bound is the whole weight is the last one. */
  lemma FullBoundIsLast(xs: seq<Centroid>, bounds: Bounds, j: nat)
    requires AllWhole(xs) && bounds(j) >= Weight(xs)
    ensures |Compress(xs, bounds)| <= j + 1
  {
    var out, cuts := Compress(xs, bounds), Cuts(xs, bounds);
    CompressObeysRule(xs, bounds);
    if |out| > j + 1 {
      assert Cluster(xs, out[j], cuts[j], cuts[j + 1], bounds(j));
      CutsOrdered(xs, out, cuts, bounds, j + 1, |out|);
      WeightGrows(xs, cuts[j + 1] + 1, |xs|);
      assert false;
    }
  }

  // ----- resolution

  /** What a cluster from a to b took in after its first input. */
  function Absorbed(xs: seq<Centroid>, a: nat, b: nat): real
    requires a < b <= |xs|
  {
    WeightTo(xs, b) - WeightTo(xs, a + 1)
  }

  /** A cluster either holds one input or absorbed less than the room between its bound and the one before. */
  lemma ClusterRoom(xs: seq<Centroid>, bounds: Bounds, j: nat)
    requires AllWhole(xs) && j < |Compress(xs, bounds)|
    ensures var cuts := Cuts(xs, bounds);
            && |cuts| == |Compress(xs, bounds)| + 1
            && cuts[j] < cuts[j + 1] <= |xs|
            && (cuts[j + 1] == cuts[j] + 1 ||
                Absorbed(xs, cuts[j], cuts[j + 1]) < bounds(j) - (if j == 0 then 0.0 else bounds(j - 1)))
  {
    var out, cuts := Compress(xs, bounds), Cuts(xs, bounds);
    CompressObeysRule(xs, bounds);
    var a, b := cuts[j], cuts[j + 1];
    assert Cluster(xs, out[j], a, b, bounds(j));
    if b != a + 1 {
      assert Fits(xs, b - 1, bounds(j));
      if j == 0 {
        WeightGrows(xs, 0, 1);
      } else {
        assert Cluster(xs, out[j - 1], cuts[j - 1], a, bounds(j - 1));
      }
    }
  }
}
