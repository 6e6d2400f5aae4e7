/** The explicit-bounds histogram of the OpenTelemetry protocol (downstream/opentelemetry_downstream.rs). */
module OtlpHistograms {
  import opened Buckets
  import opened Histograms
  import opened Types

  datatype DataPoint = DataPoint(count: nat, bounds: seq<int>, counts: seq<nat>, min: int, max: int)

  ghost predicate AllBuckets(h: Counts) {
    forall b :: b in h ==> IsBucket(b)
  }

  ghost predicate Rising(bounds: seq<int>) {
    forall i, j :: 0 <= i < j < |bounds| ==> bounds[i] < bounds[j]
  }

  /** Bucket b is the upper bound of an interval whose lower bound is the one right below the bucket. */
  ghost predicate Closed(bounds: seq<int>, b: int) {
    exists i :: 1 <= i < |bounds| && bounds[i] == b && bounds[i - 1] == Below(b)
  }

  ghost predicate Bound(x: int) {
    x < 0 || IsBucket(x)
  }

  /** x is a bucket of h or the lower bound of one. */
  ghost predicate FromBucket(h: Counts, x: int) {
    exists b :: b in h && (x == b || x == Below(b))
  }

  /** The bounds and counts of the buckets of h that are not in rest. */
  ghost predicate Shows(h: Counts, rest: Counts, bounds: seq<int>, counts: seq<nat>) {
    && Rising(bounds)
    && |counts| == |bounds|
    && (forall i :: 0 <= i < |bounds| ==> counts[i] == CountAt(h, bounds[i]))
    && (forall i :: 0 <= i < |bounds| ==> Bound(bounds[i]) && FromBucket(h, bounds[i]))
    && (bounds != [] ==> counts[0] == 0)
    && (forall b :: b in h && b !in rest ==> Closed(bounds, b))
  }

  // ----- the heap

  lemma {:induction false} HasGreatest(s: set<int>)
    requires s != {}
    ensures exists k :: k in s && forall x :: x in s ==> x <= k
  {
    var mirrored := set x | x in s :: -x;
    assert forall x :: x in s ==> -x in mirrored;
    assert exists x :: x in s by {
      assert (forall x :: x !in s) ==> s == {};
    }
    var k := -Least(mirrored);
    assert k in s;
    forall x | x in s ensures x <= k {
      assert -x in mirrored;
    }
  }

  function Greatest(s: set<int>): (k: int)
    requires s != {}
    ensures k in s
    ensures forall x :: x in s ==> x <= k
  {
    HasGreatest(s);
    var k :| k in s && forall x :: x in s ==> x <= k;
    k
  }

  method PopLeast(heap: Counts) returns (bucket: int, count: nat, rest: Counts)
    requires heap != map[]
    ensures bucket in heap && count == heap[bucket] && rest == Without(heap, bucket)
    ensures forall b :: b in rest ==> bucket < b
  {
    bucket := Least(heap.Keys);
    count := heap[bucket];
    rest := Without(heap, bucket);
  }

  // ----- the drain

  /** Every bucket still on the heap lies above the bounds so far. */
  ghost predicate Above(heap: Counts, bounds: seq<int>) {
    forall b :: b in heap && bounds != [] ==> bounds[|bounds| - 1] < b
  }

  /** The last bound so far is a bucket taken from the heap. */
  ghost predicate EndsInBucket(h: Counts, heap: Counts, bounds: seq<int>) {
    bounds != [] ==> bounds[|bounds| - 1] in h && bounds[|bounds| - 1] !in heap
  }

  lemma BelowIsFree(h: Counts, b: int, x: int)
    requires AllBuckets(h) && b in h && x in h && x < b
    ensures x <= Below(b) < b
  {
    if b >= 0 {
      BelowIsPrevious(b, x);
    } else {
      BelowNegative(b);
    }
  }

  lemma ClosedStays(bounds: seq<int>, more: seq<int>, b: int)
    requires Closed(bounds, b)
    ensures Closed(bounds + more, b)
  {
    var i :| 1 <= i < |bounds| && bounds[i] == b && bounds[i - 1] == Below(b);
    assert (bounds + more)[i] == b && (bounds + more)[i - 1] == Below(b);
  }

  lemma BelowIsBound(b: int)
    requires IsBucket(b)
    ensures Bound(Below(b))
  {
    if b > 0 {
      BelowPositiveIsBucket(b);
    } else if b < 0 {
      BelowNegative(b);
    }
  }

  /** The lower bound of b has to be inserted before b. */
  predicate Gap(bounds: seq<int>, b: int) {
    bounds == [] || bounds[|bounds| - 1] < Below(b)
  }

  function NextBounds(bounds: seq<int>, b: int): seq<int> {
    bounds + (if Gap(bounds, b) then [Below(b)] else []) + [b]
  }

  function NextCounts(bounds: seq<int>, counts: seq<nat>, b: int, count: nat): seq<nat> {
    counts + (if Gap(bounds, b) then [0] else []) + [count]
  }

  /** Bucket b comes next: it is the least on the heap and above the bounds so far. */
  ghost predicate NextUp(h: Counts, heap: Counts, bounds: seq<int>, b: int) {
    && AllBuckets(h) && heap.Keys <= h.Keys && b in heap
    && (forall x :: x in Without(heap, b) ==> b < x)
    && Above(heap, bounds) && EndsInBucket(h, heap, bounds)
  }

  lemma NextRises(h: Counts, heap: Counts, bounds: seq<int>, b: int)
    requires NextUp(h, heap, bounds, b) && Rising(bounds)
    ensures Rising(NextBounds(bounds, b)) && Closed(NextBounds(bounds, b), b)
    ensures IsBucket(b) && Bound(Below(b))
  {
    hide Below, Bucket;
    var bounds' := NextBounds(bounds, b);
    BelowOfBucket(b);
    BelowIsBound(b);
    if bounds != [] {
      BelowIsFree(h, b, bounds[|bounds| - 1]);
    }
    var i := |bounds'| - 1;
    assert bounds'[i] == b && bounds'[i - 1] == Below(b);
  }

  /** A lower bound that is inserted is not itself a bucket of the histogram. */
  lemma GapIsNoBucket(h: Counts, heap: Counts, bounds: seq<int>, counts: seq<nat>, b: int)
    requires NextUp(h, heap, bounds, b) && Shows(h, heap, bounds, counts) && Gap(bounds, b)
    ensures CountAt(h, Below(b)) == 0
  {
    hide Below, Bucket, IsBucket;
    NextRises(h, heap, bounds, b);
    BelowOfBucket(b);
    var rest := Without(heap, b);
    assert Below(b) in heap ==> Below(b) in rest;
    NothingAboveLast(bounds, Below(b));
  }

  lemma NothingAboveLast(bounds: seq<int>, x: int)
    requires Rising(bounds) && (bounds == [] || bounds[|bounds| - 1] < x)
    ensures !Closed(bounds, x)
  {
  }

  /** Appending a bucket, and its lower bound where the bounds so far end below that. */
  lemma ShowsNext(h: Counts, heap: Counts, bounds: seq<int>, counts: seq<nat>, b: int)
    requires NextUp(h, heap, bounds, b) && Shows(h, heap, bounds, counts)
    ensures Shows(h, Without(heap, b), NextBounds(bounds, b), NextCounts(bounds, counts, b, h[b]))
    ensures Above(Without(heap, b), NextBounds(bounds, b))
    ensures EndsInBucket(h, Without(heap, b), NextBounds(bounds, b))
  {
    hide Below, Bucket, IsBucket, AllBuckets, Rising, Bound, Closed, FromBucket;
    var bounds', counts' := NextBounds(bounds, b), NextCounts(bounds, counts, b, h[b]);
    BucketGivesBounds(h, b);
    NextRises(h, heap, bounds, b);
    if Gap(bounds, b) {
      GapIsNoBucket(h, heap, bounds, counts, b);
    }
    BucketIsBound(b);
    forall x | x in h && x !in Without(heap, b) ensures Closed(bounds', x) {
      if x != b {
        assert x !in heap;
        ClosedStays(bounds, bounds'[|bounds|..], x);
        assert bounds + bounds'[|bounds|..] == bounds';
      }
    }
  }

  lemma BucketGivesBounds(h: Counts, b: int)
    requires b in h
    ensures FromBucket(h, b) && FromBucket(h, Below(b))
  {
    hide Below;
  }

  lemma BucketIsBound(b: int)
    requires IsBucket(b)
    ensures Bound(b)
  {
  }

  method DrainHeap(h: Counts) returns (bounds: seq<int>, counts: seq<nat>)
    requires AllBuckets(h)
    ensures Shows(h, map[], bounds, counts)
    ensures bounds == [] <==> h == map[]
    ensures bounds != [] ==> bounds[|bounds| - 1] == Greatest(h.Keys)
  {
    hide Shows, AllBuckets, Below, EndsInBucket, Above, Closed;
    var heap := h;
    bounds, counts := [], [];
    ShowsNothing(h);
    while heap != map[]
      invariant heap.Keys <= h.Keys && forall b :: b in heap ==> heap[b] == h[b]
      invariant Shows(h, heap, bounds, counts) && Above(heap, bounds) && EndsInBucket(h, heap, bounds)
      invariant if bounds == [] then heap == h else h != map[]
      decreases |heap|
    {
      ghost var was, bounds0, counts0 := heap, bounds, counts;
      var bucket, count;
      bucket, count, heap := PopLeast(heap);
      ShowsNext(h, was, bounds, counts, bucket);
      var below := Below(bucket);
      if bounds != [] {
        if bounds[|bounds| - 1] < below {
          bounds := bounds + [below];
          counts := counts + [0];
        }
      } else {
        bounds := bounds + [below];
        counts := counts + [0];
      }
      bounds := bounds + [bucket];
      counts := counts + [count];
      assert bounds == NextBounds(bounds0, bucket) && counts == NextCounts(bounds0, counts0, bucket, count);
    }
    if h != map[] {
      LastIsGreatest(h, bounds, counts);
    }
  }

  lemma ShowsNothing(h: Counts)
    ensures Shows(h, h, [], []) && Above(h, []) && EndsInBucket(h, h, [])
  {
  }

  lemma LastIsGreatest(h: Counts, bounds: seq<int>, counts: seq<nat>)
    requires Shows(h, map[], bounds, counts) && EndsInBucket(h, map[], bounds) && h != map[]
    ensures bounds != [] && bounds[|bounds| - 1] == Greatest(h.Keys)
  {
    hide Below, Bucket, IsBucket, Bound, FromBucket;
    var top := Greatest(h.Keys);
    assert Closed(bounds, top);
  }

  /** What an exported data point says about the histogram it was made from. */
  ghost predicate Exported(h: Counts, point: DataPoint) {
    && |point.counts| == |point.bounds| + 1
    && Shows(h, map[], point.bounds, point.counts[..|point.bounds|])
    && point.counts[|point.bounds|] == 0
    && point.count == Total(h)
    && point.min == (if h == map[] then 0 else Least(h.Keys))
    && point.max == (if h == map[] then 0 else Greatest(h.Keys))
    && (h == map[] <==> point.bounds == [])
    && (h != map[] ==> point.bounds[|point.bounds| - 1] == point.max)
  }

  method AsOtelHistogram(h: Counts) returns (point: DataPoint)
    requires AllBuckets(h)
    ensures Exported(h, point)
  {
    var count := Total(h);
    var min := if h == map[] then 0 else Least(h.Keys);
    var max := if h == map[] then 0 else Greatest(h.Keys);
    var bounds, counts := DrainHeap(h);
    assert (counts + [0])[..|bounds|] == counts;
    counts := counts + [0];
    point := DataPoint(count, bounds, counts, min, max);
  }

  // ----- what the protocol asks for

  /** The counts of the first n intervals together. */
  function PrefixSum(counts: seq<nat>, n: nat): nat
    requires n <= |counts|
  {
    if n == 0 then 0 else PrefixSum(counts, n - 1) + counts[n - 1]
  }

  /** How many values are at most x. */
  function AtMost(vs: seq<int>, x: int): nat {
    if vs == [] then 0 else AtMost(vs[..|vs| - 1], x) + (if vs[|vs| - 1] <= x then 1 else 0)
  }

  function Bucketed(vs: seq<int>): (bs: seq<int>)
    ensures |bs| == |vs| && forall i :: 0 <= i < |vs| ==> bs[i] == Bucket(vs[i])
  {
    seq(|vs|, i requires 0 <= i < |vs| => Bucket(vs[i]))
  }

  lemma {:induction false} NothingBetween(vs: seq<int>, low: int, high: int)
    requires low < high
    requires forall i :: 0 <= i < |vs| ==> !(low < Bucket(vs[i]) < high)
    ensures AtMost(Bucketed(vs), high) == AtMost(Bucketed(vs), low) + Hits(vs, high)
  {
    if vs != [] {
      NothingBetween(vs[..|vs| - 1], low, high);
      assert Bucketed(vs)[..|vs| - 1] == Bucketed(vs[..|vs| - 1]);
    }
  }

  lemma {:induction false} NothingUpTo(vs: seq<int>, high: int)
    requires forall i :: 0 <= i < |vs| ==> !(Bucket(vs[i]) < high)
    ensures AtMost(Bucketed(vs), high) == Hits(vs, high)
  {
    if vs != [] {
      NothingUpTo(vs[..|vs| - 1], high);
      assert Bucketed(vs)[..|vs| - 1] == Bucketed(vs[..|vs| - 1]);
    }
  }

  lemma {:induction false} ValueHits(vs: seq<int>, i: nat)
    requires i < |vs|
    ensures Hits(vs, Bucket(vs[i])) > 0
  {
    if i < |vs| - 1 {
      ValueHits(vs[..|vs| - 1], i);
    }
  }

  /** The bounds contain the bucket of every value, and their counts are the values in the bucket of that name. */
  ghost predicate Covers(vs: seq<int>, bounds: seq<int>, counts: seq<nat>) {
    && Rising(bounds)
    && |counts| == |bounds| + 1
    && (forall i :: 0 <= i < |bounds| ==> counts[i] == Hits(vs, bounds[i]))
    && (forall j :: 0 <= j < |vs| ==> Bucket(vs[j]) in bounds)
  }

  lemma ExportCovers(vs: seq<int>, point: DataPoint)
    requires Exported(Tally(vs), point)
    ensures Covers(vs, point.bounds, point.counts)
  {
    hide Bucket, Below, Tally, Hits, Total, Rising, Bound, FromBucket, Least, Greatest;
    forall i | 0 <= i < |point.bounds| ensures point.counts[i] == Hits(vs, point.bounds[i]) {
      assert point.counts[i] == point.counts[..|point.bounds|][i];
      TallyCounts(vs, point.bounds[i]);
    }
    forall j | 0 <= j < |vs| ensures Bucket(vs[j]) in point.bounds {
      ValueHits(vs, j);
      TallyCounts(vs, Bucket(vs[j]));
      assert Closed(point.bounds, Bucket(vs[j]));
    }
  }

  lemma {:induction false} PrefixOfCovering(vs: seq<int>, bounds: seq<int>, counts: seq<nat>, i: nat)
    requires Covers(vs, bounds, counts) && i < |bounds|
    ensures PrefixSum(counts, i + 1) == AtMost(Bucketed(vs), bounds[i])
  {
    hide Bucket, Hits, AtMost, Bucketed;
    if i == 0 {
      NothingUpTo(vs, bounds[0]);
      assert PrefixSum(counts, 0) == 0;
    } else {
      PrefixOfCovering(vs, bounds, counts, i - 1);
      NothingBetween(vs, bounds[i - 1], bounds[i]);
    }
  }

  /** The counts up to a bound are the bucketed values up to that bound. */
  lemma PrefixCountsBuckets(vs: seq<int>, point: DataPoint, i: nat)
    requires Exported(Tally(vs), point) && i < |point.bounds|
    ensures PrefixSum(point.counts, i + 1) == AtMost(Bucketed(vs), point.bounds[i])
  {
    ExportCovers(vs, point);
    PrefixOfCovering(vs, point.bounds, point.counts, i);
  }

  /** A well-formed histogram data point: increasing bounds, one more count than bounds, counts adding up to the
      number of observations, and nothing in the first and the last interval. */
  lemma ExportWellFormed(vs: seq<int>, point: DataPoint)
    requires Exported(Tally(vs), point)
    ensures Rising(point.bounds) && |point.counts| == |point.bounds| + 1
    ensures point.count == |vs| && PrefixSum(point.counts, |point.counts|) == |vs|
    ensures point.counts[0] == 0 && point.counts[|point.bounds|] == 0
  {
    hide Bucket, Below, Tally, Total, PrefixSum, Covers;
    TallyTotal(vs);
    ExportCovers(vs, point);
    CoveringTotal(vs, point.bounds, point.counts);
    if point.bounds != [] {
      assert point.counts[0] == point.counts[..|point.bounds|][0];
    }
  }

  lemma CoveringTotal(vs: seq<int>, bounds: seq<int>, counts: seq<nat>)
    requires Covers(vs, bounds, counts) && counts[|bounds|] == 0
    ensures PrefixSum(counts, |counts|) == |vs|
  {
    hide Bucket, Hits, AtMost, Bucketed;
    assert vs != [] ==> Bucket(vs[0]) in bounds;
    if bounds == [] {
      assert PrefixSum(counts, 0) == 0;
    } else {
      PrefixOfCovering(vs, bounds, counts, |bounds| - 1);
      AllAtMost(Bucketed(vs), bounds[|bounds| - 1]);
    }
  }

  lemma {:induction false} AllAtMost(vs: seq<int>, x: int)
    requires forall i :: 0 <= i < |vs| ==> vs[i] <= x
    ensures AtMost(vs, x) == |vs|
  {
    if vs != [] {
      AllAtMost(vs[..|vs| - 1], x);
    }
  }

  /** Without observations there is one interval, and nothing in it. */
  lemma ExportOfNothing(point: DataPoint)
    requires Exported(Tally([]), point)
    ensures point == DataPoint(0, [], [0], 0, 0)
  {
    hide Bucket, Below, Total;
    TallyTotal([]);
    assert Tally([]) == map[];
  }

  /** The exported range is the range of the buckets of the least and the greatest observation. */
  lemma ExportedRange(vs: seq<int>, point: DataPoint, low: nat, high: nat)
    requires Exported(Tally(vs), point) && low < |vs| && high < |vs|
    requires forall i :: 0 <= i < |vs| ==> vs[low] <= vs[i] <= vs[high]
    ensures point.min == Bucket(vs[low]) && point.max == Bucket(vs[high])
  {
    hide Bucket, Below;
    forall b ensures b in Tally(vs) <==> Hits(vs, b) > 0 {
      TallyCounts(vs, b);
    }
    ValueHits(vs, low);
    ValueHits(vs, high);
    HitIsValue(vs, point.min);
    HitIsValue(vs, point.max);
    forall i | 0 <= i < |vs| ensures Bucket(vs[low]) <= Bucket(vs[i]) <= Bucket(vs[high]) {
      BucketMonotone(vs[low], vs[i]);
      BucketMonotone(vs[i], vs[high]);
    }
  }

  lemma {:induction false} HitIsValue(vs: seq<int>, b: int)
    requires Hits(vs, b) > 0
    ensures exists i :: 0 <= i < |vs| && Bucket(vs[i]) == b
  {
    if Bucket(vs[|vs| - 1]) != b {
      HitIsValue(vs[..|vs| - 1], b);
    }
  }

  // ----- the range of 64-bit integers

  /** All bounds of an export fit 64 bits exactly when all observations lie in [-91 * 10^17, 92 * 10^17]. */
  lemma ExportFits(vs: seq<int>, point: DataPoint)
    requires Exported(Tally(vs), point)
    ensures (forall i :: 0 <= i < |point.bounds| ==> IsI64(point.bounds[i]))
            <==> (forall j :: 0 <= j < |vs| ==> -EDGE + STEP <= vs[j] <= EDGE)
  {
    hide Bucket, Below, Tally, IsI64, EDGE, STEP;
    if forall j :: 0 <= j < |vs| ==> -EDGE + STEP <= vs[j] <= EDGE {
      forall i | 0 <= i < |point.bounds| ensures IsI64(point.bounds[i]) {
        BoundFits(vs, point.bounds[i]);
      }
    }
    if forall i :: 0 <= i < |point.bounds| ==> IsI64(point.bounds[i]) {
      forall j | 0 <= j < |vs| ensures -EDGE + STEP <= vs[j] <= EDGE {
        ValueHits(vs, j);
        TallyCounts(vs, Bucket(vs[j]));
        assert Closed(point.bounds, Bucket(vs[j]));
        BelowOfBucket(vs[j]);
        BothFit(vs[j]);
      }
    }
  }

  lemma BothFit(v: int)
    ensures IsI64(Bucket(v)) && IsI64(Below(v)) <==> -EDGE + STEP <= v <= EDGE
  {
    hide Bucket, Below;
    BucketFits(v);
    BelowFits(v);
  }

  lemma BoundFits(vs: seq<int>, x: int)
    requires FromBucket(Tally(vs), x)
    requires forall j :: 0 <= j < |vs| ==> -EDGE + STEP <= vs[j] <= EDGE
    ensures IsI64(x)
  {
    hide Bucket, Below, Tally, IsI64, EDGE, STEP;
    var b :| b in Tally(vs) && (x == b || x == Below(b));
    TallyCounts(vs, b);
    HitIsValue(vs, b);
    var j :| 0 <= j < |vs| && Bucket(vs[j]) == b;
    BelowOfBucket(vs[j]);
    BothFit(vs[j]);
  }

  // ----- faithfulness to the observations

  /** Rounding carried v over x. */
  predicate Crosses(v: int, x: int) {
    Bucket(v) <= x < v
  }

  /** A value that has a coarser bucket than itself. */
  predicate Moved(v: int) {
    Bucket(v) != v
  }

  lemma {:induction false} RoundedAtMost(vs: seq<int>, x: int)
    requires forall i :: 0 <= i < |vs| ==> vs[i] <= x ==> Bucket(vs[i]) <= x
    ensures AtMost(Bucketed(vs), x) >= AtMost(vs, x)
    ensures AtMost(Bucketed(vs), x) == AtMost(vs, x) <==> forall i :: 0 <= i < |vs| ==> !Crosses(vs[i], x)
  {
    hide Bucket;
    if vs != [] {
      var front := vs[..|vs| - 1];
      RoundedAtMost(front, x);
      assert Bucketed(vs)[..|vs| - 1] == Bucketed(front);
      assert forall i :: 0 <= i < |front| ==> vs[i] == front[i];
      if forall i :: 0 <= i < |front| ==> !Crosses(front[i], x) {
        if !Crosses(vs[|vs| - 1], x) {
          assert forall i :: 0 <= i < |vs| ==> !Crosses(vs[i], x);
        }
      } else {
        var i :| 0 <= i < |front| && Crosses(front[i], x);
        assert Crosses(vs[i], x);
      }
    }
  }

  /** An observation at most a bound is bucketed at most the bound. */
  lemma BucketBelowBound(v: int, x: int)
    requires Bound(x) && v <= x
    ensures Bucket(v) <= x
  {
    BucketAwayFromZero(v);
    if v > 0 {
      BucketMonotone(v, x);
    }
  }

  lemma CrossingIsMoved(v: int, x: int)
    requires Crosses(v, x)
    ensures v < 0 && Moved(v)
  {
    BucketAwayFromZero(v);
  }

  /** The counts up to a bound are at least the observations up to it: none is reported too high. */
  lemma PrefixAtLeast(vs: seq<int>, point: DataPoint, i: nat)
    requires Exported(Tally(vs), point) && i < |point.bounds|
    ensures PrefixSum(point.counts, i + 1) >= AtMost(vs, point.bounds[i])
    ensures PrefixSum(point.counts, i + 1) == AtMost(vs, point.bounds[i])
            <==> forall j :: 0 <= j < |vs| ==> !Crosses(vs[j], point.bounds[i])
  {
    hide Bucket, Below, Tally;
    var x := point.bounds[i];
    PrefixCountsBuckets(vs, point, i);
    forall j | 0 <= j < |vs| ensures vs[j] <= x ==> Bucket(vs[j]) <= x {
      if vs[j] <= x {
        BucketBelowBound(vs[j], x);
      }
    }
    RoundedAtMost(vs, x);
  }

  /** The counts up to bound i are the observations up to it. */
  ghost predicate FaithfulAt(vs: seq<int>, point: DataPoint, i: nat)
    requires |point.counts| == |point.bounds| + 1 && i < |point.bounds|
  {
    PrefixSum(point.counts, i + 1) == AtMost(vs, point.bounds[i])
  }

  ghost predicate Faithful(vs: seq<int>, point: DataPoint)
    requires |point.counts| == |point.bounds| + 1
  {
    forall i :: 0 <= i < |point.bounds| ==> FaithfulAt(vs, point, i)
  }

  /** The export is faithful at every bound exactly when no negative observation was moved by its bucket. In
      particular it is whenever no observation is negative. */
  lemma FaithfulIffNegativesUnmoved(vs: seq<int>, point: DataPoint)
    requires Exported(Tally(vs), point)
    ensures Faithful(vs, point) <==> forall j :: 0 <= j < |vs| && vs[j] < 0 ==> !Moved(vs[j])
  {
    hide Bucket, Below, Tally, PrefixSum, AtMost;
    if forall j :: 0 <= j < |vs| && vs[j] < 0 ==> !Moved(vs[j]) {
      forall i | 0 <= i < |point.bounds| ensures FaithfulAt(vs, point, i) {
        forall j | 0 <= j < |vs| ensures !Crosses(vs[j], point.bounds[i]) {
          if Crosses(vs[j], point.bounds[i]) {
            CrossingIsMoved(vs[j], point.bounds[i]);
          }
        }
        PrefixAtLeast(vs, point, i);
      }
    } else {
      var j :| 0 <= j < |vs| && vs[j] < 0 && Moved(vs[j]);
      BucketAwayFromZero(vs[j]);
      ExportCovers(vs, point);
      assert Bucket(vs[j]) in point.bounds;
      var i :| 0 <= i < |point.bounds| && point.bounds[i] == Bucket(vs[j]);
      assert Crosses(vs[j], point.bounds[i]);
      PrefixAtLeast(vs, point, i);
      assert !FaithfulAt(vs, point, i);
    }
  }

  /** How many values lie above low and are at most high. */
  function Within(vs: seq<int>, low: int, high: int): nat {
    if vs == [] then 0 else
      Within(vs[..|vs| - 1], low, high) + (if low < vs[|vs| - 1] <= high then 1 else 0)
  }

  lemma {:induction false} WithinIsDifference(vs: seq<int>, low: int, high: int)
    requires low <= high
    ensures Within(vs, low, high) == AtMost(vs, high) - AtMost(vs, low)
  {
    if vs != [] {
      WithinIsDifference(vs[..|vs| - 1], low, high);
    }
  }

  /** In a faithful export each count is the number of observations in its upper-inclusive interval. */
  lemma IntervalCounts(vs: seq<int>, point: DataPoint, i: nat)
    requires Exported(Tally(vs), point) && 1 <= i < |point.bounds|
    requires forall j :: 0 <= j < |vs| && vs[j] < 0 ==> !Moved(vs[j])
    ensures point.counts[i] == Within(vs, point.bounds[i - 1], point.bounds[i])
  {
    hide Bucket, Below, Tally, Exported, AtMost, Within, Moved;
    FaithfulIffNegativesUnmoved(vs, point);
    ExportWellFormed(vs, point);
    assert FaithfulAt(vs, point, i) && FaithfulAt(vs, point, i - 1);
    WithinIsDifference(vs, point.bounds[i - 1], point.bounds[i]);
  }

  /** The observation -101 is counted at or below -110 although it is above. */
  lemma MovedNegative()
    ensures Moved(-101) && Bucket(-101) == -110
  {
    RoundsUpToStep(101, 11, 1);
    BucketOdd(101);
  }

  // ----- from observations to the wire

  /** Observing values one after the other and exporting them. */
  method ObserveAndExport(vs: seq<int>) returns (point: DataPoint)
    ensures Exported(Tally(vs), point)
  {
    var histogram := new Histogram();
    histogram.Absorb(Collection(vs));
    var counts := histogram.IntoMap();
    forall b | b in counts ensures IsBucket(b) {
      TallyCounts(vs, b);
    }
    point := AsOtelHistogram(counts);
  }
}
