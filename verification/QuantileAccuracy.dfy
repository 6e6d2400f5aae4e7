/** How far a quantile estimate can be from the truth: a digest built from one batch brackets every quantile by
    observations whose true ranks are close to the rank asked for. */
module QuantileAccuracy {
  import opened Options
  import opened Centroids
  import opened Values
  import opened ScaleFunction
  import opened Compression
  import opened TDigests
  import opened DigestBounds
  import opened Quantiles

  lemma {:induction false} UnitWeights(vs: seq<real>, n: nat)
    requires n <= |vs|
    ensures WeightTo(Units(vs), n) == n as real
  {
    if n > 0 {
      UnitWeights(vs, n - 1);
    }
  }

  /** The clusters of an ascending batch, as positions in the batch. */
  function BatchCuts(d: nat, vs: seq<real>): seq<nat>
    requires d >= 1
  {
    Cuts(Units(vs), Shares(d, 0, |vs| as real))
  }

  lemma BatchDigest(d: nat, vs: seq<real>)
    requires d >= 1 && vs != [] && Ascending(vs)
    ensures NewWithSize(d).Valid() && AllWhole(Units(vs)) && Sorted(Units(vs))
    ensures var r := Absorb(NewWithSize(d), vs);
            && r.Valid() && r.centroids == Compress(Units(vs), Shares(d, 0, |vs| as real)) && r.centroids != []
            && r.count == |vs| as real && r.min == Some(vs[0]) && r.max == Some(vs[|vs| - 1])
    ensures Weight(Units(vs)) == |vs| as real
  {
    hide Arranged, Absorb, Compress, Shares, MinOf, MaxOf, WeightTo, MassTo, Sorted, Ascending, Widened;
    BatchArranged(d, vs);
    AbsorbKeepsInvariant(NewWithSize(d), vs);
    UnitsWhole(vs);
    SortedUnits(vs);
    UnitWeights(vs, |vs|);
    BatchFields(d, vs);
  }

  lemma BatchArranged(d: nat, vs: seq<real>)
    requires d >= 1 && Ascending(vs)
    ensures NewWithSize(d).Valid() && Arranged(NewWithSize(d), vs) == Units(vs)
  {
    hide SortByMean, Ascending;
    SortedUnits(vs);
    SortOfSorted(Units(vs));
    assert Units(vs) + [] == Units(vs);
  }

  lemma BatchFields(d: nat, vs: seq<real>)
    requires d >= 1 && vs != [] && Ascending(vs) && NewWithSize(d).Valid()
    ensures var r := Absorb(NewWithSize(d), vs);
            && r.centroids == Compress(Arranged(NewWithSize(d), vs), Shares(d, 0, |vs| as real))
            && r.count == |vs| as real && r.min == Some(vs[0]) && r.max == Some(vs[|vs| - 1])
  {
    hide Arranged, Compress, MinOf, MaxOf, Mass, KToQ, Ascending;
    ExtremesOfAscending(vs);
  }

  /** How many observations a cluster of a batch of n can hold. */
  function ClusterSpan(d: nat, n: nat): real
    requires d >= 1
  {
    1.0 + EvenRoom(d as real) * n as real
  }

  /** Cluster j of a batch lies at the positions cuts[j] to cuts[j+1], is shorter than the span, and its mean
      falls between its first and last observation. */
  ghost predicate ClusterAt(vs: seq<real>, out: seq<Centroid>, cuts: seq<nat>, j: nat, span: real)
    requires j < |out| && |cuts| == |out| + 1
  {
    && cuts[j] < cuts[j + 1] <= |vs|
    && (cuts[j + 1] - cuts[j]) as real < span
    && WeightTo(out, j) == cuts[j] as real && WeightTo(out, j + 1) == cuts[j + 1] as real
    && vs[cuts[j]] <= out[j].mean <= vs[cuts[j + 1] - 1]
  }

  lemma SpanOfBatch(d: nat, n: nat, xs: seq<Centroid>)
    requires d >= 1 && Weight(xs) == n as real
    ensures ClusterSpan(d, n) == 1.0 + OfAll(EvenRoom(d as real), xs)
  {
    hide *;
    SpanParts(d, n);
    OfAllParts(EvenRoom(d as real), xs);
  }

  lemma SpanParts(d: nat, n: nat)
    requires d >= 1
    ensures ClusterSpan(d, n) == 1.0 + EvenRoom(d as real) * n as real
  {
    hide EvenRoom;
  }

  lemma OfAllParts(share: real, xs: seq<Centroid>)
    ensures OfAll(share, xs) == share * Weight(xs)
  {
    hide Weight;
  }

  lemma BatchResolution(d: nat, vs: seq<real>, j: nat)
    requires d >= 1 && vs != [] && Ascending(vs) && AllWhole(Units(vs))
    requires j < |Compress(Units(vs), Shares(d, 0, |vs| as real))|
    ensures var cuts := BatchCuts(d, vs);
            && j + 1 < |cuts| && cuts[j] < cuts[j + 1] <= |vs|
            && (cuts[j + 1] - cuts[j]) as real < ClusterSpan(d, |vs|)
  {
    hide KToQ, Compress, Cuts, Shares, Room, EvenRoom, TailRoom, AllWhole, Sorted, Weight, OfAll, ClusterSpan;
    BatchDigest(d, vs);
    SpanOfBatch(d, |vs|, Units(vs));
    ClusterResolution(Units(vs), d, j);
    var cuts := BatchCuts(d, vs);
    UnitWeights(vs, cuts[j] + 1);
    UnitWeights(vs, cuts[j + 1]);
  }

  lemma BatchCluster(d: nat, vs: seq<real>, j: nat)
    requires d >= 1 && vs != [] && Ascending(vs) && AllWhole(Units(vs))
    requires j < |Compress(Units(vs), Shares(d, 0, |vs| as real))|
    ensures var cuts, out := BatchCuts(d, vs), Compress(Units(vs), Shares(d, 0, |vs| as real));
            |cuts| == |out| + 1 && ClusterAt(vs, out, cuts, j, ClusterSpan(d, |vs|))
  {
    hide KToQ, Compress, Cuts, Shares, ClusterSpan, AllWhole, Cluster;
    var xs, bounds := Units(vs), Shares(d, 0, |vs| as real);
    var out, cuts := Compress(xs, bounds), Cuts(xs, bounds);
    BatchResolution(d, vs, j);
    SortedUnits(vs);
    CompressObeysRule(xs, bounds);
    ClusterBetweenInputs(xs, bounds, j);
    ClustersConserve(xs, out, cuts, bounds, j);
    ClustersConserve(xs, out, cuts, bounds, j + 1);
    UnitWeights(vs, cuts[j]);
    UnitWeights(vs, cuts[j + 1]);
  }

  /** Given where all clusters lie, an estimate lies between two observations at nearby ranks. */
  lemma Bracket(digest: TDigest, vs: seq<real>, cuts: seq<nat>, span: real, q: real) returns (lo: nat, hi: nat)
    requires digest.Valid() && digest.centroids != [] && vs != []
    requires digest.min == Some(vs[0]) && digest.max == Some(vs[|vs| - 1])
    requires |cuts| == |digest.centroids| + 1 && cuts[0] == 0 && cuts[|digest.centroids|] == |vs|
    requires forall j: nat :: j < |digest.centroids| ==> ClusterAt(vs, digest.centroids, cuts, j, span)
    requires 0.0 < q < 1.0
    ensures lo < |vs| && hi < |vs|
    ensures vs[lo] <= Quantile(digest, q) <= vs[hi]
    ensures Rank(digest, q) - 2.0 * span < lo as real <= Rank(digest, q)
    ensures hi as real < Rank(digest, q) + 2.0 * span
  {
    RankInside(digest, q);
    hide Rank, Fraction, Interpolate;
    var out, rank := digest.centroids, Rank(digest, q);
    var p := Locate(out, 0, rank);
    assert ClusterAt(vs, out, cuts, p, span);
    EstimateBetweenNeighbours(digest, p, Fraction(out, p, rank));
    lo, hi := 0, |vs| - 1;
    if p > 0 {
      assert ClusterAt(vs, out, cuts, p - 1, span);
      lo := cuts[p - 1];
    }
    if p + 1 < |out| {
      assert ClusterAt(vs, out, cuts, p + 1, span);
      hi := cuts[p + 2] - 1;
    }
  }

  /** A quantile estimate of an ascending batch lies between two of its observations whose ranks differ from the
      rank asked for by less than two cluster spans. */
  lemma AscendingEstimateNearRank(d: nat, vs: seq<real>, q: real) returns (lo: nat, hi: nat)
    requires d >= 1 && vs != [] && Ascending(vs) && 0.0 < q < 1.0
    ensures NewWithSize(d).Valid() && Absorb(NewWithSize(d), vs).Valid()
    ensures var digest := Absorb(NewWithSize(d), vs);
            && lo < |vs| && hi < |vs|
            && vs[lo] <= Quantile(digest, q) <= vs[hi]
            && Rank(digest, q) - 2.0 * ClusterSpan(d, |vs|) < lo as real <= Rank(digest, q)
            && hi as real < Rank(digest, q) + 2.0 * ClusterSpan(d, |vs|)
  {
    BatchDigest(d, vs);
    var digest, cuts := Absorb(NewWithSize(d), vs), BatchCuts(d, vs);
    CompressObeysRule(Units(vs), Shares(d, 0, |vs| as real));
    hide KToQ, Compress, Cuts, Shares, ClusterSpan, ClusterAt, Quantile, Rank, Absorb;
    forall j: nat | j < |digest.centroids| ensures ClusterAt(vs, digest.centroids, cuts, j, ClusterSpan(d, |vs|)) {
      BatchCluster(d, vs, j);
    }
    lo, hi := Bracket(digest, vs, cuts, ClusterSpan(d, |vs|), q);
  }

  /** The same for a batch in any order: the estimate of quantile q lies between observations of the batch whose
      ranks, in the sorted batch, are less than two cluster spans away from the rank asked for. */
  lemma EstimateNearRank(d: nat, values: seq<real>, q: real) returns (lo: nat, hi: nat)
    requires d >= 1 && values != [] && 0.0 < q < 1.0
    ensures NewWithSize(d).Valid() && Absorb(NewWithSize(d), values).Valid()
    ensures var digest, sorted := Absorb(NewWithSize(d), values), SortValues(values);
            && Ascending(sorted) && multiset(sorted) == multiset(values)
            && lo < |sorted| && hi < |sorted|
            && sorted[lo] <= Quantile(digest, q) <= sorted[hi]
            && Rank(digest, q) - 2.0 * ClusterSpan(d, |values|) < lo as real <= Rank(digest, q)
            && hi as real < Rank(digest, q) + 2.0 * ClusterSpan(d, |values|)
  {
    SortValuesSorts(values);
    SortValuesHolds(values);
    assert NewWithSize(d).Valid();
    hide Absorb, Quantile, Rank, ClusterSpan, SortValues, Ascending;
    AbsorbIgnoresArrival(NewWithSize(d), values, SortValues(values));
    lo, hi := AscendingEstimateNearRank(d, SortValues(values), q);
  }

  // ----- a batch whose estimates go down

  /** Absorbing 0, 10, 11 and 12 keeps four centroids. */
  lemma FourObservationsAbsorbed()
    ensures Default().Valid() && Absorb(Default(), [0.0, 10.0, 11.0, 12.0]) == FourObservations()
  {
    var vs := [0.0, 10.0, 11.0, 12.0];
    BatchDigest(100, vs);
    FourApart();
    hide KToQ, NextMisfits, Absorb, Compress, Shares, Widened;
    NothingFits(Units(vs), Shares(100, 0, 4.0));
    AbsorbKeepsInvariant(Default(), vs);
    assert Default() == NewWithSize(100);
  }

  lemma FourApart()
    ensures var vs := [0.0, 10.0, 11.0, 12.0];
      AllWhole(Units(vs)) && Units(vs) == FourObservations().centroids
      && forall j: nat :: NextMisfits(Units(vs), Shares(100, 0, 4.0), j)
  {
    hide KToQ;
    var vs := [0.0, 10.0, 11.0, 12.0];
    UnitsWhole(vs);
    forall j: nat ensures NextMisfits(Units(vs), Shares(100, 0, 4.0), j) {
      if j < 3 {
        UnitWeights(vs, j + 2);
        SmallShare(j + 1);
      }
    }
  }

  lemma SmallShare(k: nat)
    requires k <= 3
    ensures KToQ(k as real, 100.0) * 4.0 < 1.0
  {
    var x := k as real / 100.0;
    assert x == 0.0 || x == 0.01 || x == 0.02 || x == 0.03;
  }

  /** Estimates of a digest of four observations can go down. */
  lemma AbsorbedEstimatesGoDown() returns (q: real, q': real)
    ensures Default().Valid() && Absorb(Default(), [0.0, 10.0, 11.0, 12.0]).Valid()
    ensures var digest := Absorb(Default(), [0.0, 10.0, 11.0, 12.0]);
      q < q' && Quantile(digest, q) > Quantile(digest, q')
  {
    FourObservationsAbsorbed();
    EstimatesCanGoDown();
    q, q' :| q < q' && Quantile(FourObservations(), q) > Quantile(FourObservations(), q');
  }
}
