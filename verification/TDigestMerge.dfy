/** The merging algorithms of the t-digest (tdigest.rs) in the form they have in the source: loops over
    mutable locals, and an in-place merge of runs in one array. */
module DigestMerging {
  import opened Options
  import opened Centroids
  import opened Values
  import opened ScaleFunction
  import opened Compression
  import opened TDigests
  import opened RunMerging

  lemma DropOne<T>(xs: seq<T>, k: nat, head: T, rest: seq<T>)
    requires k <= |xs| && xs[k..] == [head] + rest
    ensures k < |xs| && xs[k] == head && xs[k + 1..] == rest
  {
    assert xs[k..][0] == head && xs[k..][1..] == rest;
  }

  // ----- merge_sorted

  /** The next input of the two-way merge: the centroid if its mean is strictly smaller, else the observation. */
  predicate CentroidNext(centroids: seq<Centroid>, i: nat, values: seq<real>, j: nat)
    requires i <= |centroids| && j <= |values|
  {
    i < |centroids| && (j == |values| || centroids[i].mean < values[j])
  }

  /** What the two streams still hold, in the order in which the merge will take it. */
  ghost function Rest(centroids: seq<Centroid>, i: nat, values: seq<real>, j: nat): seq<Centroid>
    requires i <= |centroids| && j <= |values|
  {
    MergeRuns(Units(values[j..]), centroids[i..])
  }

  /** Taking the next input advances one of the two sorted streams and their merge alike. */
  lemma TakeNext(centroids: seq<Centroid>, i: nat, values: seq<real>, j: nat)
    requires i <= |centroids| && j <= |values| && (i < |centroids| || j < |values|)
    ensures Rest(centroids, i, values, j) ==
            if CentroidNext(centroids, i, values, j)
            then [centroids[i]] + Rest(centroids, i + 1, values, j)
            else [Centroid(values[j], 1.0)] + Rest(centroids, i, values, j + 1)
  {
    var us, cs := Units(values[j..]), centroids[i..];
    if j < |values| {
      assert values[j..][1..] == values[j + 1..] && us[1..] == Units(values[j + 1..]);
    }
    if i < |centroids| {
      assert cs[1..] == centroids[i + 1..] && cs[0] == centroids[i];
    }
    if us == [] {
      assert MergeRuns(us, cs[1..]) == cs[1..];
    } else if cs == [] {
      assert MergeRuns(us[1..], cs) == us[1..];
    }
  }

  /** Take the next input off the two streams. */
  method NextInput(centroids: seq<Centroid>, i: nat, values: seq<real>, j: nat, ghost xs: seq<Centroid>)
    returns (next: Centroid, i': nat, j': nat)
    requires i <= |centroids| && j <= |values| && (i < |centroids| || j < |values|)
    requires i + j <= |xs| && xs[i + j..] == Rest(centroids, i, values, j)
    ensures i' <= |centroids| && j' <= |values| && i' + j' == i + j + 1 <= |xs|
    ensures i <= i' && j <= j'
    ensures next == xs[i + j] && xs[i' + j'..] == Rest(centroids, i', values, j')
  {
    TakeNext(centroids, i, values, j);
    if CentroidNext(centroids, i, values, j) {
      next, i', j' := centroids[i], i + 1, j;
    } else {
      next, i', j' := Centroid(values[j], 1.0), i, j + 1;
    }
    DropOne(xs, i + j, next, Rest(centroids, i', values, j'));
  }

  /** The loop of merge_sorted over the two streams, whose merge is xs. */
  method CompressStreams(centroids: seq<Centroid>, values: seq<real>, maxSize: nat, count: real, ghost xs: seq<Centroid>)
    returns (compressed: seq<Centroid>, sum: real)
    requires maxSize >= 1 && AllWhole(xs) && |xs| == |centroids| + |values| && xs != []
    requires xs[0..] == Rest(centroids, 0, values, 0)
    ensures compressed == Compress(xs, Shares(maxSize, 0, count))
    ensures sum == Mass(xs)
  {
    hide KToQ, Centroid.Add, Centroid.Total, Run, Compress, Mass, AllWhole, Rest;
    ghost var bounds := Shares(maxSize, 0, count);
    var kLimit: nat := 1;
    var limit := ScaledLimit(kLimit, maxSize, count);
    kLimit := kLimit + 1;
    var curr, i, j := NextInput(centroids, 0, values, 0, xs);
    var weightSoFar := curr.weight;
    var pendingTotal, pendingWeight := 0.0, 0.0;
    sum := 0.0;
    compressed := [];
    RunStart(xs, bounds);

    while i < |centroids| || j < |values|
      invariant i <= |centroids| && j <= |values| && 1 <= i + j <= |xs|
      invariant xs[i + j..] == Rest(centroids, i, values, j)
      invariant kLimit == |compressed| + 2
      invariant limit == bounds(|compressed|)
      invariant Pass(compressed, curr, pendingTotal, pendingWeight, weightSoFar, sum) == Run(xs, i + j, bounds)
      decreases |centroids| - i + |values| - j
    {
      ghost var before, bound := Run(xs, i + j, bounds), limit;
      RunNext(xs, i + j, bounds);
      var next;
      next, i, j := NextInput(centroids, i, values, j, xs);
      weightSoFar := weightSoFar + next.weight;
      if weightSoFar <= limit {
        pendingTotal := pendingTotal + next.Total();
        pendingWeight := pendingWeight + next.weight;
      } else {
        var (grown, total) := curr.Add(pendingTotal, pendingWeight);
        sum := sum + total;
        pendingTotal, pendingWeight := 0.0, 0.0;
        compressed := compressed + [grown];
        limit := ScaledLimit(kLimit, maxSize, count);
        kLimit := kLimit + 1;
        curr := next;
      }
      assert Pass(compressed, curr, pendingTotal, pendingWeight, weightSoFar, sum) == Feed(before, next, bound);
    }

    RunCompresses(xs, bounds);
    var (grown, total) := curr.Add(pendingTotal, pendingWeight);
    sum := sum + total;
    compressed := compressed + [grown];
  }

  /** merge_sorted takes values in any order; for ascending ones it is the reference for a batch. */
  method MergeSorted(digest: TDigest, values: seq<real>) returns (result: TDigest)
    requires digest.Valid()
    ensures result == AbsorbInOrder(digest, values)
    ensures Ascending(values) ==> result == Absorb(digest, values)
  {
    hide Compress, Shares, MergeRuns, SortByMean, Absorb, WeightTo, MassTo, Ascending, Sorted;
    if Ascending(values) {
      InOrderIfAscending(digest, values);
    }
    if values == [] {
      return digest;
    }
    var count := digest.count + |values| as real;
    var min, max := values[0], values[|values| - 1];
    CountSign(digest);
    if digest.count > 0.0 {
      min := Min(digest.min.value, min);
      max := Max(digest.max.value, max);
    }
    ghost var xs := Interleaved(digest, values);
    LengthOfMerge(Units(values), digest.centroids);
    assert xs[0..] == xs && values[0..] == values && digest.centroids[0..] == digest.centroids;
    var compressed, sum := CompressStreams(digest.centroids, values, digest.maxSize, count, xs);
    result := TDigest(SortByMean(compressed), digest.maxSize, sum, count, Some(max), Some(min));
  }

  /** merge_unsorted: sort the batch, then merge it. */
  method MergeUnsorted(digest: TDigest, values: seq<real>) returns (result: TDigest)
    requires digest.Valid()
    ensures result == Absorb(digest, values)
  {
    var sorted := SortValues(values);
    SortValuesSorts(values);
    SortValuesHolds(values);
    AbsorbIgnoresArrival(digest, values, sorted);
    result := MergeSorted(digest, sorted);
  }

  // ----- merge_digests

  /** The starts recorded so far are those of sorted runs that make up the collected centroids. */
  ghost predicate RunsOf(centroids: seq<Centroid>, starts: seq<nat>) {
    && (starts == [] ==> centroids == [])
    && (starts != [] ==> RunStarts(starts, |centroids|))
    && forall i: nat :: i < |starts| ==> RunSorted(centroids, starts, i)
  }

  lemma {:induction false} AllCentroidsSnoc(digests: seq<TDigest>, digest: TDigest)
    ensures AllCentroids(digests + [digest]) == AllCentroids(digests) + digest.centroids
    ensures TotalCount(digests + [digest]) == TotalCount(digests) + digest.count
  {
    if digests == [] {
      assert (digests + [digest])[1..] == [];
    } else {
      AllCentroidsSnoc(digests[1..], digest);
      assert (digests + [digest])[1..] == digests[1..] + [digest];
    }
  }

  lemma {:induction false} ExtremesSnoc(digests: seq<TDigest>, digest: TDigest)
    ensures LeastMin(digests + [digest]) ==
            if digest.centroids == [] then LeastMin(digests) else Lower(LeastMin(digests), digest.min)
    ensures GreatestMax(digests + [digest]) ==
            if digest.centroids == [] then GreatestMax(digests) else Higher(GreatestMax(digests), digest.max)
  {
    if digests == [] {
      assert (digests + [digest])[1..] == [];
    } else {
      ExtremesSnoc(digests[1..], digest);
      assert (digests + [digest])[1..] == digests[1..] + [digest];
    }
  }

  lemma AddRun(centroids: seq<Centroid>, starts: seq<nat>, run: seq<Centroid>)
    requires RunsOf(centroids, starts) && Sorted(run)
    ensures RunsOf(centroids + run, starts + [|centroids|])
  {
    var centroids', starts' := centroids + run, starts + [|centroids|];
    forall i: nat | i < |starts'| ensures RunSorted(centroids', starts', i) {
      var lo, hi := StartAt(starts', |centroids'|, i), StartAt(starts', |centroids'|, i + 1);
      if i < |starts| {
        assert RunSorted(centroids, starts, i);
        assert centroids'[lo..hi] == centroids[lo..hi];
      } else {
        assert centroids'[lo..hi] == run;
      }
    }
  }

  /** The first loop of merge_digests: collect all centroids, where the runs start, and the totals. */
  method Gather(digests: seq<TDigest>) returns (centroids: seq<Centroid>, starts: seq<nat>, count: real, min: Option<real>, max: Option<real>)
    requires AllValid(digests)
    ensures RunsOf(centroids, starts) && |starts| == |digests|
    ensures centroids == AllCentroids(digests)
    ensures count == TotalCount(digests) && min == LeastMin(digests) && max == GreatestMax(digests)
  {
    centroids, starts := [], [];
    count, min, max := 0.0, None, None;
    assert RunsOf(centroids, starts);
    hide RunsOf, TDigest.Valid;
    for k := 0 to |digests|
      invariant RunsOf(centroids, starts) && |starts| == k
      invariant centroids == AllCentroids(digests[..k])
      invariant count == TotalCount(digests[..k]) && min == LeastMin(digests[..k]) && max == GreatestMax(digests[..k])
    {
      var digest := digests[k];
      assert digests[..k + 1] == digests[..k] + [digest];
      AllCentroidsSnoc(digests[..k], digest);
      ExtremesSnoc(digests[..k], digest);
      CountSign(digest);
      AddRun(centroids, starts, digest.centroids);
      starts := starts + [|centroids|];
      if digest.count > 0.0 {
        min := Lower(min, digest.min);
        max := Higher(max, digest.max);
        count := count + digest.count;
        centroids := centroids + digest.centroids;
      } else {
        assert centroids + digest.centroids == centroids;
      }
    }
    assert digests[..|digests|] == digests;
  }

  /** The last loop of merge_digests: compress the sorted array; the centroid that opened a cluster is grown in
      place before it is copied out. */
  method CompressArray(centroids: array<Centroid>, maxSize: nat, count: real) returns (compressed: seq<Centroid>, sum: real)
    requires maxSize >= 1 && centroids.Length > 0 && AllWhole(centroids[..])
    modifies centroids
    ensures compressed == old(Compress(centroids[..], Shares(maxSize, 1, count)))
    ensures sum == old(Mass(centroids[..]))
  {
    hide KToQ, Centroid.Add, Centroid.Total, Run, Compress, Mass, AllWhole;
    ghost var xs, bounds := centroids[..], Shares(maxSize, 1, count);
    var kLimit: nat := 1;
    var limit := ScaledLimit(kLimit, maxSize, count);
    var curr: nat := 0;
    var weightSoFar := centroids[curr].weight;
    var pendingTotal, pendingWeight := 0.0, 0.0;
    sum := 0.0;
    compressed := [];
    RunStart(xs, bounds);
    for i := 1 to centroids.Length
      invariant curr < i
      invariant centroids[curr] == xs[curr] && centroids[i..] == xs[i..]
      invariant kLimit == |compressed| + 1
      invariant limit == bounds(|compressed|)
      invariant Pass(compressed, centroids[curr], pendingTotal, pendingWeight, weightSoFar, sum) == Run(xs, i, bounds)
    {
      ghost var before, bound := Run(xs, i, bounds), limit;
      RunNext(xs, i, bounds);
      var centroid := centroids[i];
      assert centroid == centroids[i..][0] == xs[i];
      weightSoFar := weightSoFar + centroid.weight;
      if weightSoFar <= limit {
        pendingTotal := pendingTotal + centroid.Total();
        pendingWeight := pendingWeight + centroid.weight;
      } else {
        var (grown, total) := centroids[curr].Add(pendingTotal, pendingWeight);
        centroids[curr] := grown;
        sum := sum + total;
        pendingTotal, pendingWeight := 0.0, 0.0;
        compressed := compressed + [centroids[curr]];
        limit := ScaledLimit(kLimit, maxSize, count);
        kLimit := kLimit + 1;
        curr := i;
      }
      assert Pass(compressed, centroids[curr], pendingTotal, pendingWeight, weightSoFar, sum) == Feed(before, centroid, bound);
      assert centroids[i + 1..] == xs[i + 1..] by {
        assert centroids[i..][1..] == centroids[i + 1..] && xs[i..][1..] == xs[i + 1..];
      }
    }
    RunCompresses(xs, bounds);
    var (grown, total) := centroids[curr].Add(pendingTotal, pendingWeight);
    centroids[curr] := grown;
    sum := sum + total;
    compressed := compressed + [centroids[curr]];
  }

  method MergeDigests(digests: seq<TDigest>) returns (result: TDigest)
    requires AllValid(digests)
    ensures result == Combine(digests)
  {
    var centroids, starts, count, min, max := Gather(digests);
    if |centroids| == 0 {
      return Default();
    }
    var maxSize := digests[0].maxSize;
    var sorted := new Centroid[|centroids|](i requires 0 <= i < |centroids| => centroids[i]);
    assert sorted[..] == centroids;
    MergeAllRuns(sorted, starts);
    AllCentroidsWhole(digests);
    SortKeepsWhole(centroids);
    SortByMeanSorts(centroids);
    var compressed, sum := CompressArray(sorted, maxSize, count);
    CompressionKeepsOrder(SortByMean(centroids), Shares(maxSize, 1, count));
    SortOfSorted(compressed);
    result := TDigest(SortByMean(compressed), maxSize, sum, count, max, min);
  }
}
