/** Quantile estimates of a digest (tdigest.rs, estimate_quantile and clamp): the two scans find the same
    centroid, the estimate lies between its neighbours, and exactly when estimates never go down. */
module Quantiles {
  import opened RealFacts
  import opened Options
  import opened Centroids
  import opened TDigests

  function Clamp(v: real, lo: real, hi: real): real {
    if v > hi then hi else if v < lo then lo else v
  }

  /** The centroid at position p covers the ranks from the weight before it up to, not including, the weight
      with it. */
  predicate Covers(xs: seq<Centroid>, p: nat, rank: real)
    requires p < |xs|
  {
    WeightTo(xs, p) <= rank < WeightTo(xs, p + 1)
  }

  lemma CoverIsUnique(xs: seq<Centroid>, p: nat, p': nat, rank: real)
    requires AllWhole(xs) && p < |xs| && p' < |xs| && Covers(xs, p, rank) && Covers(xs, p', rank)
    ensures p == p'
  {
    if p < p' {
      WeightGrows(xs, p + 1, p');
    } else if p' < p {
      WeightGrows(xs, p' + 1, p);
    }
  }

  /** The position that covers a rank. */
  function Locate(xs: seq<Centroid>, p: nat, rank: real): (pos: nat)
    requires p < |xs| && WeightTo(xs, p) <= rank < Weight(xs)
    ensures pos < |xs| && Covers(xs, pos, rank)
    decreases |xs| - p
  {
    if rank < WeightTo(xs, p + 1) then p else Locate(xs, p + 1, rank)
  }

  // ----- the estimate inside one centroid

  /** Half the distance to the neighbours on both sides, or the distance to the only neighbour. */
  function Delta(digest: TDigest, p: nat): real
    requires p < |digest.centroids|
  {
    var xs := digest.centroids;
    if |xs| == 1 then 0.0
    else if p == 0 then xs[p + 1].mean - xs[p].mean
    else if p == |xs| - 1 then xs[p].mean - xs[p - 1].mean
    else (xs[p + 1].mean - xs[p - 1].mean) / 2.0
  }

  function Low(digest: TDigest, p: nat): real
    requires p < |digest.centroids| && digest.min.Some?
  {
    if p == 0 then digest.min.value else digest.centroids[p - 1].mean
  }

  function High(digest: TDigest, p: nat): real
    requires p < |digest.centroids| && digest.max.Some?
  {
    if p == |digest.centroids| - 1 then digest.max.value else digest.centroids[p + 1].mean
  }

  /** The offset from the mean at the share s of the way through a centroid. */
  function Offset(s: real, delta: real): real {
    (s - 0.5) * delta
  }

  lemma OffsetRises(s: real, s': real, delta: real)
    requires s <= s' && delta >= 0.0
    ensures Offset(s, delta) <= Offset(s', delta)
  {
    MulMono(s - 0.5, s' - 0.5, delta);
  }

  /** The estimate for the share s of the way through centroid p. */
  function Interpolate(digest: TDigest, p: nat, s: real): real
    requires p < |digest.centroids| && digest.min.Some? && digest.max.Some?
  {
    Clamp(digest.centroids[p].mean + Offset(s, Delta(digest, p)), Low(digest, p), High(digest, p))
  }

  /** How far through its centroid a rank lies. */
  function Fraction(xs: seq<Centroid>, p: nat, rank: real): real
    requires p < |xs| && xs[p].weight != 0.0
  {
    (rank - WeightTo(xs, p)) / xs[p].weight
  }

  /** The rank that quantile q asks for. */
  function Rank(digest: TDigest, q: real): real {
    q * digest.count
  }

  /** The reference: quantile q of a digest. */
  function Quantile(digest: TDigest, q: real): real
    requires digest.Valid()
  {
    if digest.centroids == [] then 0.0
    else if q >= 1.0 then digest.max.value
    else if q <= 0.0 then digest.min.value
    else
      RankInside(digest, q);
      var pos := Locate(digest.centroids, 0, Rank(digest, q));
      Interpolate(digest, pos, Fraction(digest.centroids, pos, Rank(digest, q)))
  }

  lemma RankInside(digest: TDigest, q: real)
    requires digest.Valid() && digest.centroids != [] && 0.0 < q < 1.0
    ensures 0.0 < Rank(digest, q) < Weight(digest.centroids)
  {
    WeightGrows(digest.centroids, 0, |digest.centroids|);
    MulPos(q, digest.count);
    MulMonoStrict(q, 1.0, digest.count);
  }

  method EstimateQuantile(digest: TDigest, q: real) returns (value: real)
    requires digest.Valid()
    ensures value == Quantile(digest, q)
  {
    var xs := digest.centroids;
    if |xs| == 0 {
      return 0.0;
    }
    var rank := Rank(digest, q);
    var pos: nat, t: real;
    if q > 0.5 {
      if q >= 1.0 {
        return digest.max.value;
      }
      RankInside(digest, q);
      pos, t := ScanBackward(xs, rank);
    } else {
      if q <= 0.0 {
        return digest.min.value;
      }
      RankInside(digest, q);
      pos, t := ScanForward(xs, rank);
    }
    CoverIsUnique(xs, pos, Locate(xs, 0, rank), rank);
    hide Covers, Locate, WeightTo, MassTo, Sorted, AllWhole;

    var delta := 0.0;
    var min, max := digest.min.value, digest.max.value;
    if |xs| > 1 {
      if pos == 0 {
        delta := xs[pos + 1].mean - xs[pos].mean;
        max := xs[pos + 1].mean;
      } else if pos == |xs| - 1 {
        delta := xs[pos].mean - xs[pos - 1].mean;
        min := xs[pos - 1].mean;
      } else {
        delta := (xs[pos + 1].mean - xs[pos - 1].mean) / 2.0;
        min := xs[pos - 1].mean;
        max := xs[pos + 1].mean;
      }
    }
    value := Clamp(xs[pos].mean + Offset((rank - t) / xs[pos].weight, delta), min, max);
  }

  /** The scan of the upper half: from the last centroid down. */
  method ScanBackward(xs: seq<Centroid>, rank: real) returns (pos: nat, t: real)
    requires xs != [] && AllWhole(xs) && 0.0 <= rank < Weight(xs)
    ensures pos < |xs| && Covers(xs, pos, rank) && t == WeightTo(xs, pos)
  {
    pos := 0;
    t := Weight(xs);
    var k := |xs|;
    while k > 0
      invariant 0 <= k <= |xs| && t == WeightTo(xs, k) && rank < t
    {
      k := k - 1;
      t := t - xs[k].weight;
      if rank >= t {
        pos := k;
        break;
      }
    }
  }

  /** The scan of the lower half: from the first centroid up. */
  method ScanForward(xs: seq<Centroid>, rank: real) returns (pos: nat, t: real)
    requires xs != [] && AllWhole(xs) && 0.0 <= rank < Weight(xs)
    ensures pos < |xs| && Covers(xs, pos, rank) && t == WeightTo(xs, pos)
  {
    pos := |xs| - 1;
    t := 0.0;
    for k := 0 to |xs|
      invariant t == WeightTo(xs, k) <= rank
      invariant pos == |xs| - 1
    {
      if rank < t + xs[k].weight {
        pos := k;
        break;
      }
      t := t + xs[k].weight;
    }
  }

  // ----- where estimates lie

  lemma Neighbours(digest: TDigest, p: nat)
    requires digest.Valid() && p < |digest.centroids|
    ensures Low(digest, p) <= digest.centroids[p].mean <= High(digest, p)
    ensures digest.min.value <= Low(digest, p) && High(digest, p) <= digest.max.value
    ensures Delta(digest, p) >= 0.0
  {
    var xs := digest.centroids;
    if p > 0 {
      assert xs[p - 1].mean <= xs[p].mean;
    }
    if p + 1 < |xs| {
      assert xs[p].mean <= xs[p + 1].mean;
    }
  }

  /** An estimate lies between the means of the neighbouring centroids, or the extremes at the ends. */
  lemma EstimateBetweenNeighbours(digest: TDigest, p: nat, s: real)
    requires digest.Valid() && p < |digest.centroids|
    ensures Low(digest, p) <= Interpolate(digest, p, s) <= High(digest, p)
    ensures digest.min.value <= Interpolate(digest, p, s) <= digest.max.value
  {
    Neighbours(digest, p);
  }

  /** Every quantile of a non-empty digest lies between its extremes. */
  lemma QuantileBetweenExtremes(digest: TDigest, q: real)
    requires digest.Valid() && digest.centroids != []
    ensures digest.min.value <= Quantile(digest, q) <= digest.max.value
  {
    if 0.0 < q < 1.0 {
      RankInside(digest, q);
      var pos := Locate(digest.centroids, 0, Rank(digest, q));
      EstimateBetweenNeighbours(digest, pos, Fraction(digest.centroids, pos, Rank(digest, q)));
    } else {
      assert digest.min.value <= digest.centroids[0].mean <= digest.max.value;
    }
  }

  /** Estimates that fall two or more centroids apart are in order. */
  lemma FarEstimatesInOrder(digest: TDigest, p: nat, s: real, p': nat, s': real)
    requires digest.Valid() && p + 2 <= p' < |digest.centroids|
    ensures Interpolate(digest, p, s) <= Interpolate(digest, p', s')
  {
    EstimateBetweenNeighbours(digest, p, s);
    EstimateBetweenNeighbours(digest, p', s');
    assert digest.centroids[p + 1].mean <= digest.centroids[p' - 1].mean;
  }

  /** Inside one centroid the estimate does not go down. */
  lemma EstimateRises(digest: TDigest, p: nat, s: real, s': real)
    requires digest.Valid() && p < |digest.centroids| && s <= s'
    ensures Interpolate(digest, p, s) <= Interpolate(digest, p, s')
  {
    Neighbours(digest, p);
    OffsetRises(s, s', Delta(digest, p));
  }

  // ----- when all estimates are in order

  /** The gap between the means of two neighbours, and the gaps on either side of it, is wide enough: it is zero, or at
      least the average of the gaps before and after it. At an end the gap itself stands in for the missing one. */
  predicate SeamHolds(digest: TDigest, p: nat)
    requires p + 1 < |digest.centroids|
  {
    var gap := Gap(digest, p);
    var before := if p == 0 then gap else Gap(digest, p - 1);
    var after := if p + 2 == |digest.centroids| then gap else Gap(digest, p + 1);
    gap == 0.0 || before + after <= 2.0 * gap
  }

  function Gap(digest: TDigest, p: nat): real
    requires p + 1 < |digest.centroids|
  {
    digest.centroids[p + 1].mean - digest.centroids[p].mean
  }

  ghost predicate Seamless(digest: TDigest) {
    forall p: nat :: p + 1 < |digest.centroids| ==> SeamHolds(digest, p)
  }

  /** The gaps say whether the estimate at the end of a centroid is at most the one at the start of the next. */
  lemma SeamIsOrder(digest: TDigest, p: nat)
    requires digest.Valid() && p + 1 < |digest.centroids|
    ensures SeamHolds(digest, p) <==> Interpolate(digest, p, 1.0) <= Interpolate(digest, p + 1, 0.0)
  {
    Neighbours(digest, p);
    Neighbours(digest, p + 1);
    HalfOffsets(Delta(digest, p));
    HalfOffsets(Delta(digest, p + 1));
    hide TDigest.Valid, Offset;
  }

  lemma HalfOffsets(delta: real)
    ensures Offset(1.0, delta) == delta / 2.0 && Offset(0.0, delta) == -delta / 2.0
  {
  }

  lemma FractionRange(xs: seq<Centroid>, p: nat, rank: real)
    requires AllWhole(xs) && p < |xs| && Covers(xs, p, rank)
    ensures 0.0 <= Fraction(xs, p, rank) < 1.0
  {
    var w := xs[p].weight;
    assert WeightTo(xs, p + 1) == WeightTo(xs, p) + w;
    DivAbove(rank - WeightTo(xs, p), 0.0, w);
    DivMonoStrict(rank - WeightTo(xs, p), w, w);
    MulDiv(1.0, w);
  }

  lemma RankRises(digest: TDigest, q: real, q': real)
    requires digest.Valid() && q <= q'
    ensures Rank(digest, q) <= Rank(digest, q')
  {
    CountSign(digest);
    MulMono(q, q', digest.count);
  }

  lemma LocateRises(xs: seq<Centroid>, r: real, r': real)
    requires xs != [] && AllWhole(xs) && 0.0 <= r <= r' < Weight(xs)
    ensures Locate(xs, 0, r) <= Locate(xs, 0, r')
  {
    var p, p' := Locate(xs, 0, r), Locate(xs, 0, r');
    if p' < p {
      WeightGrows(xs, p' + 1, p);
    }
  }

  lemma FractionRises(xs: seq<Centroid>, p: nat, r: real, r': real)
    requires AllWhole(xs) && p < |xs| && r <= r'
    ensures Fraction(xs, p, r) <= Fraction(xs, p, r')
  {
    if r < r' {
      DivMonoStrict(r - WeightTo(xs, p), r' - WeightTo(xs, p), xs[p].weight);
    }
  }

  lemma SeamlessInOrder(digest: TDigest, q: real, q': real)
    requires digest.Valid() && digest.centroids != [] && Seamless(digest) && 0.0 < q <= q' < 1.0
    ensures Quantile(digest, q) <= Quantile(digest, q')
  {
    hide Rank, Fraction, Interpolate, SeamHolds;
    var xs := digest.centroids;
    RankInside(digest, q);
    RankInside(digest, q');
    var r, r' := Rank(digest, q), Rank(digest, q');
    RankRises(digest, q, q');
    LocateRises(xs, r, r');
    var p, p' := Locate(xs, 0, r), Locate(xs, 0, r');
    var s, s' := Fraction(xs, p, r), Fraction(xs, p', r');
    FractionRange(xs, p, r);
    FractionRange(xs, p', r');
    if p' == p {
      FractionRises(xs, p, r, r');
      EstimateRises(digest, p, s, s');
    } else if p' == p + 1 {
      EstimateRises(digest, p, s, 1.0);
      assert SeamHolds(digest, p);
      SeamIsOrder(digest, p);
      EstimateRises(digest, p', 0.0, s');
    } else {
      FarEstimatesInOrder(digest, p, s, p', s');
    }
  }

  /** Somewhere before the end of a rising line its value is already above v. */
  lemma NearEndOfLine(m: real, delta: real, v: real) returns (s: real)
    requires delta >= 0.0 && m + Offset(1.0, delta) > v
    ensures 0.0 < s < 1.0 && m + Offset(s, delta) > v
  {
    var above := m + Offset(1.0, delta) - v;
    var back := Small(above, delta);
    s := 1.0 - back;
    assert Offset(s, delta) == Offset(1.0, delta) - back * delta;
  }

  lemma Small(above: real, delta: real) returns (back: real)
    requires above > 0.0 && delta >= 0.0
    ensures 0.0 < back < 1.0 && back * delta < above
  {
    var c := 2.0 * (above + delta);
    back := above / c;
    DivMul(above, c);
    DivMonoStrict(0.0, above, c);
    DivMonoStrict(above, c, c);
    MulDiv(0.0, c);
    MulDiv(1.0, c);
    MulMono(delta, c, back);
    Commute(back, delta);
    Commute(back, c);
    if back * delta == above {
      MulMonoStrict(delta, c, back);
    }
  }

  /** A share s short of the end whose estimate is already above v. */
  lemma NearEnd(digest: TDigest, p: nat, v: real) returns (s: real)
    requires digest.Valid() && p < |digest.centroids| && Interpolate(digest, p, 1.0) > v
    ensures 0.0 < s < 1.0 && Interpolate(digest, p, s) > v
  {
    Neighbours(digest, p);
    assert Offset(1.0, Delta(digest, p)) >= 0.0;
    hide Offset;
    s := NearEndOfLine(digest.centroids[p].mean, Delta(digest, p), v);
  }

  /** The rank at the share s of the way through centroid p. */
  function RankAt(xs: seq<Centroid>, p: nat, s: real): real
    requires p < |xs|
  {
    WeightTo(xs, p) + Part(s, xs[p].weight)
  }

  function Part(s: real, w: real): real {
    s * w
  }

  lemma PartInside(s: real, w: real)
    requires 0.0 <= s < 1.0 && w >= 1.0
    ensures 0.0 <= Part(s, w) < w
    ensures s > 0.0 ==> Part(s, w) > 0.0
    ensures Part(0.0, w) == 0.0
  {
    MulNonneg(s, w);
    MulMonoStrict(s, 1.0, w);
    if s > 0.0 {
      MulPos(s, w);
    }
  }

  lemma RankAtCovers(xs: seq<Centroid>, p: nat, s: real)
    requires AllWhole(xs) && p < |xs| && 0.0 <= s < 1.0 && (p == 0 ==> s > 0.0)
    ensures 0.0 < RankAt(xs, p, s) < Weight(xs)
    ensures Covers(xs, p, RankAt(xs, p, s)) && Fraction(xs, p, RankAt(xs, p, s)) == s
  {
    hide Fraction, Part;
    PartInside(s, xs[p].weight);
    WeightGrows(xs, 0, p);
    WeightGrows(xs, p + 1, |xs|);
    RankAtFraction(xs, p, s);
  }

  lemma RankAtFraction(xs: seq<Centroid>, p: nat, s: real)
    requires AllWhole(xs) && p < |xs|
    ensures Fraction(xs, p, RankAt(xs, p, s)) == s
  {
    MulDiv(s, xs[p].weight);
  }

  lemma QuantileAt(digest: TDigest, p: nat, s: real) returns (q: real)
    requires digest.Valid() && p < |digest.centroids| && 0.0 <= s < 1.0 && (p == 0 ==> s > 0.0)
    ensures 0.0 < q < 1.0 && Quantile(digest, q) == Interpolate(digest, p, s)
    ensures Rank(digest, q) == RankAt(digest.centroids, p, s)
  {
    var xs, n := digest.centroids, digest.count;
    RankAtCovers(xs, p, s);
    var rank := RankAt(xs, p, s);
    q := rank / n;
    DivMul(rank, n);
    DivMonoStrict(0.0, rank, n);
    DivMonoStrict(rank, n, n);
    MulDiv(0.0, n);
    MulDiv(1.0, n);
    assert Rank(digest, q) == rank;
    hide Rank, RankAt, Fraction, Interpolate;
    RankInside(digest, q);
    CoverIsUnique(xs, p, Locate(xs, 0, rank), rank);
  }

  lemma SeamRanks(digest: TDigest, p: nat, s: real, q: real, q': real)
    requires digest.Valid() && p + 1 < |digest.centroids| && 0.0 <= s < 1.0
    requires Rank(digest, q) == RankAt(digest.centroids, p, s) && Rank(digest, q') == RankAt(digest.centroids, p + 1, 0.0)
    ensures q < q'
  {
    hide WeightTo, Part, RankAt, Rank;
    CountSign(digest);
    RankAtSeam(digest.centroids, p, s);
    RankCancels(digest, q, q');
  }

  lemma RankAtSeam(xs: seq<Centroid>, p: nat, s: real)
    requires AllWhole(xs) && p + 1 < |xs| && 0.0 <= s < 1.0
    ensures RankAt(xs, p, s) < RankAt(xs, p + 1, 0.0)
  {
    hide Part;
    PartInside(s, xs[p].weight);
    PartInside(0.0, xs[p + 1].weight);
  }

  lemma RankCancels(digest: TDigest, q: real, q': real)
    requires digest.count > 0.0 && Rank(digest, q) < Rank(digest, q')
    ensures q < q'
  {
    CancelLess(q, q', digest.count);
  }

  /** Estimates never go down as q grows exactly when no gap between neighbouring means, unless it is zero, is smaller
      than the average of the gaps next to it. */
  lemma QuantilesInOrderIffSeamless(digest: TDigest)
    requires digest.Valid() && digest.centroids != []
    ensures (forall q, q' :: q <= q' ==> Quantile(digest, q) <= Quantile(digest, q')) <==> Seamless(digest)
  {
    if Seamless(digest) {
      forall q, q' | q <= q' ensures Quantile(digest, q) <= Quantile(digest, q') {
        if 0.0 < q && q' < 1.0 {
          SeamlessInOrder(digest, q, q');
        } else {
          QuantileBetweenExtremes(digest, q);
          QuantileBetweenExtremes(digest, q');
        }
      }
    } else {
      var p: nat :| p + 1 < |digest.centroids| && !SeamHolds(digest, p);
      var q, q' := BrokenSeam(digest, p);
    }
  }

  /** A broken seam shows up as two quantiles in the wrong order. */
  lemma BrokenSeam(digest: TDigest, p: nat) returns (q: real, q': real)
    requires digest.Valid() && p + 1 < |digest.centroids| && !SeamHolds(digest, p)
    ensures q < q' && Quantile(digest, q) > Quantile(digest, q')
  {
    SeamIsOrder(digest, p);
    var s := NearEnd(digest, p, Interpolate(digest, p + 1, 0.0));
    q := QuantileAt(digest, p, s);
    q' := QuantileAt(digest, p + 1, 0.0);
    SeamRanks(digest, p, s, q, q');
  }

  /** A digest of the observations 0, 10, 11 and 12. */
  function FourObservations(): TDigest {
    var cs := [Centroid(0.0, 1.0), Centroid(10.0, 1.0), Centroid(11.0, 1.0), Centroid(12.0, 1.0)];
    TDigest(cs, 100, Mass(cs), Weight(cs), Some(12.0), Some(0.0))
  }

  /** Estimates can go down: at the seam after the second of four observations. */
  lemma EstimatesCanGoDown()
    ensures FourObservations().Valid()
    ensures exists q, q' :: q < q' && Quantile(FourObservations(), q) > Quantile(FourObservations(), q')
  {
    var digest := FourObservations();
    IntIsWhole(1);
    assert !SeamHolds(digest, 1);
    var q, q' := BrokenSeam(digest, 1);
  }

  // ----- what the estimates are

  /** At the ends an estimate is the exact extreme, and without observations it is zero. */
  lemma QuantileEnds(digest: TDigest, q: real)
    requires digest.Valid()
    ensures digest.centroids == [] ==> Quantile(digest, q) == 0.0
    ensures digest.centroids != [] && q <= 0.0 ==> Some(Quantile(digest, q)) == digest.min
    ensures digest.centroids != [] && q >= 1.0 ==> Some(Quantile(digest, q)) == digest.max
  {
  }

  /** The centroid that covers the rank gives the estimate. */
  lemma QuantileIn(digest: TDigest, q: real, p: nat)
    requires digest.Valid() && 0.0 < q < 1.0 && p < |digest.centroids| && Covers(digest.centroids, p, Rank(digest, q))
    ensures digest.centroids[p].weight > 0.0
    ensures Quantile(digest, q) == Interpolate(digest, p, Fraction(digest.centroids, p, Rank(digest, q)))
  {
    RankInside(digest, q);
    CoverIsUnique(digest.centroids, p, Locate(digest.centroids, 0, Rank(digest, q)), Rank(digest, q));
  }

  /** The rank in the middle of a centroid is estimated at its mean. */
  lemma CentreIsMean(digest: TDigest, q: real, p: nat)
    requires digest.Valid() && 0.0 < q < 1.0 && p < |digest.centroids|
    requires Rank(digest, q) == WeightTo(digest.centroids, p) + digest.centroids[p].weight / 2.0
    ensures Quantile(digest, q) == digest.centroids[p].mean
  {
    hide Rank, Fraction, Quantile;
    var xs := digest.centroids;
    assert Whole(xs[p].weight);
    QuantileIn(digest, q, p);
    HalfFraction(xs, p, Rank(digest, q));
    Neighbours(digest, p);
    NoOffset(Delta(digest, p));
  }

  lemma HalfFraction(xs: seq<Centroid>, p: nat, rank: real)
    requires p < |xs| && xs[p].weight != 0.0 && rank == WeightTo(xs, p) + xs[p].weight / 2.0
    ensures Fraction(xs, p, rank) == 0.5
  {
    var w := xs[p].weight;
    MulDiv(0.5, w);
    assert w / 2.0 == 0.5 * w;
  }

  lemma NoOffset(delta: real)
    ensures Offset(0.5, delta) == 0.0
  {
  }

  /** Within one centroid estimates lie on a line as far as the means of the neighbours, or the extremes, allow:
      between two of them, the estimate in the middle is their average. */
  lemma MidpointIsAverage(digest: TDigest, q: real, q': real, p: nat)
    requires digest.Valid() && 0.0 < q <= q' < 1.0 && p < |digest.centroids|
    requires Covers(digest.centroids, p, Rank(digest, q)) && Covers(digest.centroids, p, Rank(digest, q'))
    requires var low := if p == 0 then digest.min.value else digest.centroids[p - 1].mean;
      low < Quantile(digest, q) && low < Quantile(digest, q')
    requires var high := if p + 1 == |digest.centroids| then digest.max.value else digest.centroids[p + 1].mean;
      Quantile(digest, q) < high && Quantile(digest, q') < high
    ensures Quantile(digest, (q + q') / 2.0) == (Quantile(digest, q) + Quantile(digest, q')) / 2.0
  {
    hide Quantile, Interpolate, Fraction, WeightTo, Delta, Offset, Rank;
    var xs, m := digest.centroids, (q + q') / 2.0;
    var r, r', middle := Rank(digest, q), Rank(digest, q'), Rank(digest, m);
    MiddleRank(digest, q, q');
    QuantileIn(digest, q, p);
    QuantileIn(digest, q', p);
    QuantileIn(digest, m, p);
    MiddleFraction(xs, p, r, r', middle);
    MiddleEstimate(digest, p, Fraction(xs, p, r), Fraction(xs, p, r'), Fraction(xs, p, middle));
  }

  lemma MiddleEstimate(digest: TDigest, p: nat, s: real, s': real, t: real)
    requires digest.Valid() && p < |digest.centroids| && t == (s + s') / 2.0
    requires Low(digest, p) < Interpolate(digest, p, s) < High(digest, p)
    requires Low(digest, p) < Interpolate(digest, p, s') < High(digest, p)
    ensures Interpolate(digest, p, t) == (Interpolate(digest, p, s) + Interpolate(digest, p, s')) / 2.0
  {
    MiddleOffset(s, s', t, Delta(digest, p));
    hide TDigest.Valid, Low, High, Delta, Offset;
  }

  lemma MiddleRank(digest: TDigest, q: real, q': real)
    ensures Rank(digest, (q + q') / 2.0) == (Rank(digest, q) + Rank(digest, q')) / 2.0
  {
  }

  lemma MiddleFraction(xs: seq<Centroid>, p: nat, r: real, r': real, middle: real)
    requires p < |xs| && xs[p].weight > 0.0 && middle == (r + r') / 2.0
    ensures Fraction(xs, p, middle) == (Fraction(xs, p, r) + Fraction(xs, p, r')) / 2.0
  {
    var t := WeightTo(xs, p);
    MiddleQuotient(r - t, r' - t, middle - t, xs[p].weight);
  }

  lemma MiddleQuotient(a: real, b: real, c: real, w: real)
    requires w > 0.0 && c == (a + b) / 2.0
    ensures c / w == (a / w + b / w) / 2.0
  {
    DivMul(a, w);
    DivMul(b, w);
    var x := (a / w + b / w) / 2.0;
    assert x * w == ((a / w) * w + (b / w) * w) / 2.0;
    MulDiv(x, w);
  }

  lemma MiddleOffset(s: real, s': real, t: real, delta: real)
    requires t == (s + s') / 2.0
    ensures Offset(t, delta) == (Offset(s, delta) + Offset(s', delta)) / 2.0
  {
  }

  // ----- evenly spaced observations

  /** The point x steps of h after a. */
  function Point(a: real, h: real, x: real): real {
    a + x * h
  }

  /** n unit centroids whose means start at a and are h apart, and nothing beyond them. */
  ghost predicate Evenly(digest: TDigest, a: real, h: real) {
    && |digest.centroids| >= 2 && h >= 0.0
    && (forall i: nat :: i < |digest.centroids| ==> digest.centroids[i] == Centroid(Point(a, h, i as real), 1.0))
    && digest.min == Some(a) && digest.max == Some(Point(a, h, |digest.centroids| as real - 1.0))
  }

  lemma {:induction false} UnitPrefix(xs: seq<Centroid>, k: nat)
    requires k <= |xs| && forall i: nat :: i < |xs| ==> xs[i].weight == 1.0
    ensures WeightTo(xs, k) == k as real
  {
    if k > 0 {
      UnitPrefix(xs, k - 1);
    }
  }

  /** A quantile of evenly spaced observations is the point as far along their line as its rank, less one half, kept
      between the first and the last. */
  lemma EvenlySpaced(digest: TDigest, a: real, h: real, q: real, rank: real)
    requires digest.Valid() && Evenly(digest, a, h) && 0.0 < q < 1.0 && rank == q * |digest.centroids| as real
    ensures var line, last := a + (rank - 0.5) * h, a + (|digest.centroids| as real - 1.0) * h;
      Quantile(digest, q) == if line < a then a else if line > last then last else line
  {
    hide Quantile, TDigest.Valid, Point, Clamp, Rank;
    EvenCount(digest, a, h);
    RankOf(digest, q, |digest.centroids| as real);
    EvenQuantile(digest, a, h, q, rank);
    ClampPoint(a, h, rank - 0.5, |digest.centroids| as real - 1.0);
  }

  lemma RankOf(digest: TDigest, q: real, n: real)
    requires digest.count == n
    ensures Rank(digest, q) == q * n
  {
  }

  lemma ClampPoint(a: real, h: real, x: real, y: real)
    requires h >= 0.0 && y >= 0.0
    ensures var line, last := a + x * h, a + y * h;
      Clamp(Point(a, h, x), a, Point(a, h, y)) == if line < a then a else if line > last then last else line
  {
    MulNonneg(y, h);
  }

  lemma EvenCount(digest: TDigest, a: real, h: real)
    requires digest.Valid() && Evenly(digest, a, h)
    ensures digest.count == |digest.centroids| as real
  {
    UnitPrefix(digest.centroids, |digest.centroids|);
  }

  lemma EvenQuantile(digest: TDigest, a: real, h: real, q: real, rank: real)
    requires digest.Valid() && Evenly(digest, a, h) && 0.0 < q < 1.0 && rank == Rank(digest, q)
    ensures Quantile(digest, q) == Clamp(Point(a, h, rank - 0.5), a, Point(a, h, |digest.centroids| as real - 1.0))
  {
    hide Quantile, Interpolate, Fraction, Delta, WeightTo, Point, Clamp, Rank, Locate;
    var xs := digest.centroids;
    RankInside(digest, q);
    UnitPrefix(xs, 0);
    var p := Locate(xs, 0, rank);
    QuantileIn(digest, q, p);
    UnitPrefix(xs, p);
    UnitPrefix(xs, p + 1);
    UnitFraction(xs, p, rank);
    EvenEstimate(digest, a, h, p, rank);
  }

  lemma UnitFraction(xs: seq<Centroid>, p: nat, r: real)
    requires p < |xs| && xs[p].weight == 1.0
    ensures Fraction(xs, p, r) == r - WeightTo(xs, p)
  {
  }

  lemma EvenEstimate(digest: TDigest, a: real, h: real, p: nat, r: real)
    requires digest.Valid() && Evenly(digest, a, h) && p < |digest.centroids| && p as real <= r < p as real + 1.0
    ensures Interpolate(digest, p, r - p as real) ==
            Clamp(Point(a, h, r - 0.5), a, Point(a, h, |digest.centroids| as real - 1.0))
  {
    EvenNeighbours(digest, a, h, p);
    OnLine(a, h, p as real, r);
    hide Delta, Offset, TDigest.Valid, Low, High, Point, Clamp;
    var low, high := Low(digest, p), High(digest, p);
    ClampWithin(Point(a, h, p as real), Offset(r - p as real, h), h, a, digest.max.value, low, high);
  }

  lemma EvenNeighbours(digest: TDigest, a: real, h: real, p: nat)
    requires Evenly(digest, a, h) && p < |digest.centroids|
    ensures Delta(digest, p) == h
    ensures var mean, last := Point(a, h, p as real), digest.max.value;
      && a <= mean <= last
      && ((Low(digest, p) == a && mean == a) || (Low(digest, p) == mean - h && a <= mean - h))
      && ((High(digest, p) == last && mean == last) || (High(digest, p) == mean + h && mean + h <= last))
  {
    hide Point;
    var n := |digest.centroids|;
    assert (n - 1) as real == n as real - 1.0;
    PointsRise(a, h, 0.0, p as real);
    PointsRise(a, h, p as real, (n - 1) as real);
    assert Point(a, h, 0.0) == a by { NoSteps(a, h); }
    if p + 1 < n {
      OneStep(a, h, p);
      PointsRise(a, h, (p + 1) as real, (n - 1) as real);
    }
    if p > 0 {
      OneStep(a, h, p - 1);
      PointsRise(a, h, 0.0, (p - 1) as real);
    }
  }

  lemma NoSteps(a: real, h: real)
    ensures Point(a, h, 0.0) == a
  {
  }

  lemma OneStep(a: real, h: real, p: nat)
    ensures Point(a, h, (p + 1) as real) == Point(a, h, p as real) + h
  {
    assert (p + 1) as real == p as real + 1.0;
  }

  lemma PointsRise(a: real, h: real, x: real, y: real)
    requires h >= 0.0 && x <= y
    ensures Point(a, h, x) <= Point(a, h, y)
  {
    MulMono(x, y, h);
  }

  lemma OnLine(a: real, h: real, p: real, r: real)
    requires h >= 0.0 && p <= r <= p + 1.0
    ensures Point(a, h, r - 0.5) == Point(a, h, p) + Offset(r - p, h)
    ensures -h / 2.0 <= Offset(r - p, h) <= h / 2.0
  {
    OffsetRises(0.0, r - p, h);
    OffsetRises(r - p, 1.0, h);
    HalfOffsets(h);
  }

  /** Keeping a value between its neighbours is keeping it between the ends, when it is within half a step of the
      mean and the neighbours are a whole step or the end away. */
  lemma ClampWithin(mean: real, offset: real, h: real, a: real, last: real, low: real, high: real)
    requires h >= 0.0 && -h / 2.0 <= offset <= h / 2.0 && a <= mean <= last
    requires (low == a && mean == a) || (low == mean - h && a <= low)
    requires (high == last && mean == last) || (high == mean + h && high <= last)
    ensures Clamp(mean + offset, low, high) == Clamp(mean + offset, a, last)
  {
  }
}
