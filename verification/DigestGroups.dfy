/** What the centroids of a digest stand for: a partition of all its observations into groups, each with the size and
    the mean of its centroid. */
module DigestGroups {
  import opened Options
  import opened Folds
  import opened Centroids
  import opened Values
  import opened Compression
  import opened TDigests

  /** A centroid holds a group: its weight is the size of the group, and its total the total of the group. */
  predicate HoldsGroup(c: Centroid, group: seq<real>) {
    group != [] && c.weight == |group| as real && c.Total() == Sum(group)
  }

  predicate Grouped(cs: seq<Centroid>, groups: seq<seq<real>>) {
    |groups| == |cs| && forall i :: 0 <= i < |cs| ==> HoldsGroup(cs[i], groups[i])
  }

  /** The centroids partition the observations into groups that they hold. */
  ghost predicate Partitions(cs: seq<Centroid>, observed: seq<real>) {
    exists groups :: IsPartition(cs, groups, observed)
  }

  ghost predicate IsPartition(cs: seq<Centroid>, groups: seq<seq<real>>, observed: seq<real>) {
    Grouped(cs, groups) && multiset(Flat(groups)) == multiset(observed)
  }

  /** The mean of a centroid is the mean of its group. */
  lemma MeanOfGroup(c: Centroid, group: seq<real>)
    requires HoldsGroup(c, group)
    ensures c.mean == Sum(group) / |group| as real
  {
    assert c.mean * c.weight == Sum(group);
  }

  lemma {:induction false} SumIgnoresOrder(vs: seq<real>, ws: seq<real>)
    requires multiset(vs) == multiset(ws)
    ensures Sum(vs) == Sum(ws) && |vs| == |ws|
  {
    if vs == [] {
      SameNothing(ws);
    } else {
      assert vs == [vs[0]] + vs[1..];
      var before, after := TakeOut(vs[0], vs[1..], ws);
      SumIgnoresOrder(vs[1..], before + after);
      SumOfConcat(before, after);
      SumOfConcat(before + [vs[0]], after);
      SumOfConcat(before, [vs[0]]);
      assert Sum([vs[0]]) == vs[0];
    }
  }

  // ----- inputs

  function Singles(vs: seq<real>): seq<seq<real>> {
    if vs == [] then [] else [[vs[0]]] + Singles(vs[1..])
  }

  lemma {:induction false} UnitsGrouped(vs: seq<real>)
    ensures Grouped(Units(vs), Singles(vs)) && Flat(Singles(vs)) == vs
  {
    if vs != [] {
      UnitsGrouped(vs[1..]);
      UnitHolds(vs[0]);
      assert Singles(vs)[1..] == Singles(vs[1..]);
      assert Units(vs) == [Centroid(vs[0], 1.0)] + Units(vs[1..]);
    }
  }

  lemma UnitHolds(v: real)
    ensures HoldsGroup(Centroid(v, 1.0), [v])
  {
    assert Sum([v]) == v;
  }

  /** Centroids in another order hold the same groups in another order. */
  lemma {:induction false} PermutedGroups(xs: seq<Centroid>, groups: seq<seq<real>>, ys: seq<Centroid>)
    returns (permuted: seq<seq<real>>)
    requires Grouped(xs, groups) && multiset(xs) == multiset(ys)
    ensures Grouped(ys, permuted) && multiset(Flat(permuted)) == multiset(Flat(groups))
  {
    hide HoldsGroup;
    if xs == [] {
      SameNothing(ys);
      permuted := [];
    } else {
      assert xs == [xs[0]] + xs[1..];
      var before, after := TakeOut(xs[0], xs[1..], ys);
      var rest := PermutedGroups(xs[1..], groups[1..], before + after);
      var k := |before|;
      permuted := (rest[..k] + [groups[0]]) + rest[k..];
      InsertedGroup(before, xs[0], after, rest, groups[0]);
      assert rest[..k] + rest[k..] == rest;
      FlatConcat(rest[..k], rest[k..]);
      FlatConcat(rest[..k] + [groups[0]], rest[k..]);
      FlatConcat(rest[..k], [groups[0]]);
      FlatOne(groups[0]);
    }
  }

  lemma InsertedGroup(before: seq<Centroid>, c: Centroid, after: seq<Centroid>, rest: seq<seq<real>>, group: seq<real>)
    requires Grouped(before + after, rest) && HoldsGroup(c, group)
    ensures Grouped((before + [c]) + after, (rest[..|before|] + [group]) + rest[|before|..])
  {
    hide HoldsGroup;
    var all, groups := (before + [c]) + after, (rest[..|before|] + [group]) + rest[|before|..];
    forall i | 0 <= i < |all| ensures HoldsGroup(all[i], groups[i]) {
      if i < |before| {
        assert all[i] == (before + after)[i];
      } else if i > |before| {
        assert all[i] == (before + after)[i - 1];
      }
    }
  }

  // ----- clusters

  /** The groups from a to b have together the weight and the mass of their centroids. */
  lemma {:induction false} RunOfGroups(xs: seq<Centroid>, groups: seq<seq<real>>, a: nat, b: nat)
    requires Grouped(xs, groups) && a <= b <= |xs|
    ensures WeightTo(xs, b) - WeightTo(xs, a) == |Flat(groups[a..b])| as real
    ensures MassTo(xs, b) - MassTo(xs, a) == Sum(Flat(groups[a..b]))
    decreases b
  {
    hide Centroid.Total;
    if a < b {
      RunOfGroups(xs, groups, a, b - 1);
      assert groups[a..b] == groups[a..b - 1] + [groups[b - 1]];
      FlatConcat(groups[a..b - 1], [groups[b - 1]]);
      FlatOne(groups[b - 1]);
      SumOfConcat(Flat(groups[a..b - 1]), groups[b - 1]);
      assert HoldsGroup(xs[b - 1], groups[b - 1]);
    } else {
      assert groups[a..b] == [];
    }
  }

  /** A cluster holds the groups of its inputs together. */
  lemma PoolHoldsGroups(xs: seq<Centroid>, groups: seq<seq<real>>, a: nat, b: nat)
    requires AllWhole(xs) && Grouped(xs, groups) && a < b <= |xs|
    ensures HoldsGroup(Pool(xs, a, b), Flat(groups[a..b]))
  {
    hide Pool, HoldsGroup, WeightTo, MassTo, Centroid.Total;
    RunOfGroups(xs, groups, a, b);
    PoolTotal(xs, a, b);
    WeightGrows(xs, a, b);
    GroupFits(Pool(xs, a, b), Flat(groups[a..b]));
  }

  lemma GroupFits(c: Centroid, group: seq<real>)
    requires c.weight >= 1.0 && c.weight == |group| as real && c.Total() == Sum(group)
    ensures HoldsGroup(c, group)
  {
  }

  /** The j-th cut and the next one bound a stretch of the first n positions. */
  predicate Stretch(cuts: seq<nat>, j: nat, n: nat) {
    j + 1 < |cuts| && 0 <= cuts[j] <= cuts[j + 1] <= n
  }

  function Joined(groups: seq<seq<real>>, cuts: seq<nat>, j: nat): seq<real>
    requires Stretch(cuts, j, |groups|)
  {
    Flat(groups[cuts[j]..cuts[j + 1]])
  }

  function MergedGroups(groups: seq<seq<real>>, cuts: seq<nat>, n: nat): (merged: seq<seq<real>>)
    requires n < |cuts| && forall j: nat :: j < n ==> Stretch(cuts, j, |groups|)
    ensures |merged| == n && forall j: nat :: j < n ==> merged[j] == Joined(groups, cuts, j)
  {
    if n == 0 then [] else
      assert Stretch(cuts, n - 1, |groups|);
      MergedGroups(groups, cuts, n - 1) + [Joined(groups, cuts, n - 1)]
  }

  lemma {:induction false} MergedGroupsFlat(groups: seq<seq<real>>, cuts: seq<nat>, n: nat)
    requires n < |cuts| && forall j: nat :: j < n ==> Stretch(cuts, j, |groups|)
    requires cuts[0] == 0
    ensures cuts[n] <= |groups| && Flat(MergedGroups(groups, cuts, n)) == Flat(groups[..cuts[n]])
  {
    if n > 0 {
      MergedGroupsFlat(groups, cuts, n - 1);
      assert Stretch(cuts, n - 1, |groups|);
      var last := Joined(groups, cuts, n - 1);
      FlatConcat(MergedGroups(groups, cuts, n - 1), [last]);
      FlatOne(last);
      assert groups[..cuts[n]] == groups[..cuts[n - 1]] + groups[cuts[n - 1]..cuts[n]];
      FlatConcat(groups[..cuts[n - 1]], groups[cuts[n - 1]..cuts[n]]);
    }
  }

  /** A compression keeps the observations: the group of a cluster is the groups of its inputs together. */
  lemma CompressionGroups(xs: seq<Centroid>, groups: seq<seq<real>>, bounds: Bounds) returns (merged: seq<seq<real>>)
    requires AllWhole(xs) && Grouped(xs, groups)
    ensures Grouped(Compress(xs, bounds), merged) && Flat(merged) == Flat(groups)
  {
    hide Compress, Cuts, Grouped, HoldsGroup, Pool, AllWhole;
    var out, cuts := Compress(xs, bounds), Cuts(xs, bounds);
    CompressObeysRule(xs, bounds);
    assert |groups| == |xs| by {
      GroupsCount(xs, groups);
    }
    forall j: nat | j < |out| ensures Stretch(cuts, j, |groups|) && HoldsGroup(out[j], Joined(groups, cuts, j)) {
      assert Cluster(xs, out[j], cuts[j], cuts[j + 1], bounds(j));
      PoolHoldsGroups(xs, groups, cuts[j], cuts[j + 1]);
    }
    merged := MergedGroups(groups, cuts, |out|);
    MergedGroupsFlat(groups, cuts, |out|);
    assert groups[..|groups|] == groups;
    AllHold(out, merged);
  }

  lemma GroupsCount(xs: seq<Centroid>, groups: seq<seq<real>>)
    requires Grouped(xs, groups)
    ensures |groups| == |xs|
  {
  }

  lemma AllHold(cs: seq<Centroid>, groups: seq<seq<real>>)
    requires |groups| == |cs| && forall i: nat :: i < |cs| ==> HoldsGroup(cs[i], groups[i])
    ensures Grouped(cs, groups)
  {
    hide HoldsGroup;
  }

  lemma GroupedConcat(a: seq<Centroid>, b: seq<Centroid>, g: seq<seq<real>>, h: seq<seq<real>>)
    requires Grouped(a, g) && Grouped(b, h)
    ensures Grouped(a + b, g + h) && Flat(g + h) == Flat(g) + Flat(h)
  {
    hide HoldsGroup;
    FlatConcat(g, h);
  }

  /** Sorting and compressing centroids keeps what they partition. */
  lemma SortedCompressionPartitions(all: seq<Centroid>, observed: seq<real>, bounds: Bounds)
    requires Partitions(all, observed) && AllWhole(SortByMean(all))
    ensures Partitions(Compress(SortByMean(all), bounds), observed)
  {
    hide Partitions, SortByMean, Compress, AllWhole;
    SortByMeanSorts(all);
    PartitionsArranged(all, SortByMean(all), observed);
    CompressionPartitions(SortByMean(all), observed, bounds);
  }

  lemma PartitionsConcat(a: seq<Centroid>, b: seq<Centroid>, vs: seq<real>, ws: seq<real>)
    requires Partitions(a, vs) && Partitions(b, ws)
    ensures Partitions(a + b, vs + ws)
  {
    hide Grouped;
    var g :| IsPartition(a, g, vs);
    var h :| IsPartition(b, h, ws);
    GroupedConcat(a, b, g, h);
    assert IsPartition(a + b, g + h, vs + ws);
  }

  lemma PartitionsPermuted(cs: seq<Centroid>, vs: seq<real>, ws: seq<real>)
    requires Partitions(cs, vs) && multiset(vs) == multiset(ws)
    ensures Partitions(cs, ws)
  {
    hide Grouped;
    var g :| IsPartition(cs, g, vs);
    assert IsPartition(cs, g, ws);
  }

  lemma UnitsPartition(vs: seq<real>)
    ensures Partitions(Units(vs), vs)
  {
    UnitsGrouped(vs);
    assert IsPartition(Units(vs), Singles(vs), vs);
  }

  // ----- digests

  /** A well-formed digest of exactly these observations: its centroids partition them, and its count, sum and
      extremes are theirs. */
  ghost predicate Describes(digest: TDigest, observed: seq<real>) {
    && digest.Valid() && Partitions(digest.centroids, observed)
    && digest.count == |observed| as real && digest.sum == Sum(observed)
    && (observed != [] ==> digest.min == Some(MinOf(observed)) && digest.max == Some(MaxOf(observed)))
  }

  lemma NothingDescribed(digest: TDigest)
    requires digest.Valid() && digest.centroids == []
    ensures Describes(digest, [])
  {
    assert IsPartition([], [], []);
  }

  /** Absorbing a batch describes the old observations and the batch. */
  lemma AbsorbDescribes(digest: TDigest, observed: seq<real>, batch: seq<real>)
    requires Describes(digest, observed)
    ensures Describes(Absorb(digest, batch), observed + batch)
  {
    hide Partitions;
    AbsorbKeepsInvariant(digest, batch);
    if batch == [] {
      assert observed + batch == observed;
    } else {
      SumOfConcat(observed, batch);
      AbsorbPartitions(digest, observed, batch);
      AbsorbExtremes(digest, observed, batch);
    }
  }

  lemma AbsorbPartitions(digest: TDigest, observed: seq<real>, batch: seq<real>)
    requires digest.Valid() && Partitions(digest.centroids, observed) && batch != []
    ensures Partitions(Absorb(digest, batch).centroids, observed + batch)
  {
    hide Partitions, Compress, SortByMean, Shares;
    UnitsWhole(batch);
    UnitsPartition(batch);
    PartitionsConcat(Units(batch), digest.centroids, batch, observed);
    SortKeepsWhole(Units(batch) + digest.centroids);
    var bounds := Shares(digest.maxSize, 0, digest.count + |batch| as real);
    SortedCompressionPartitions(Units(batch) + digest.centroids, batch + observed, bounds);
    PartitionsPermuted(Compress(Arranged(digest, batch), bounds), batch + observed, observed + batch);
  }

  /** Values that are not in ascending order may end up in other centroids, but none is lost: the centroids still
      partition the old observations and the values, and there are no more than max_size of them. */
  lemma InOrderPartitions(digest: TDigest, observed: seq<real>, values: seq<real>)
    requires digest.Valid() && Partitions(digest.centroids, observed) && values != []
    ensures Partitions(AbsorbInOrder(digest, values).centroids, observed + values)
    ensures Sorted(AbsorbInOrder(digest, values).centroids)
    ensures |AbsorbInOrder(digest, values).centroids| <= digest.maxSize
  {
    hide Partitions, Compress, SortByMean, Shares, MergeRuns, WeightTo, MassTo;
    var xs, d := Interleaved(digest, values), digest.maxSize;
    UnitsPartition(values);
    PartitionsConcat(Units(values), digest.centroids, values, observed);
    MergeHolds(Units(values), digest.centroids);
    PartitionsArranged(Units(values) + digest.centroids, xs, values + observed);
    InterleavedTotals(digest, values);
    var out := Compress(xs, Shares(d, 0, Weight(xs)));
    CompressionPartitions(xs, values + observed, Shares(d, 0, Weight(xs)));
    SortByMeanSorts(out);
    PartitionsArranged(out, SortByMean(out), values + observed);
    PartitionsPermuted(SortByMean(out), values + observed, observed + values);
    CompressedSize(xs, d, 0);
  }

  lemma PartitionsArranged(cs: seq<Centroid>, ds: seq<Centroid>, observed: seq<real>)
    requires Partitions(cs, observed) && multiset(cs) == multiset(ds)
    ensures Partitions(ds, observed)
  {
    hide Grouped;
    var g :| IsPartition(cs, g, observed);
    var h := PermutedGroups(cs, g, ds);
    assert IsPartition(ds, h, observed);
  }

  lemma CompressionPartitions(xs: seq<Centroid>, observed: seq<real>, bounds: Bounds)
    requires AllWhole(xs) && Partitions(xs, observed)
    ensures Partitions(Compress(xs, bounds), observed)
  {
    hide Grouped, Compress, AllWhole;
    var groups :| IsPartition(xs, groups, observed);
    var merged := CompressionGroups(xs, groups, bounds);
    assert IsPartition(Compress(xs, bounds), merged, observed);
  }

  lemma AbsorbExtremes(digest: TDigest, observed: seq<real>, batch: seq<real>)
    requires Describes(digest, observed) && batch != []
    ensures var r := Absorb(digest, batch);
      r.min == Some(MinOf(observed + batch)) && r.max == Some(MaxOf(observed + batch))
  {
    hide Partitions, Compress, Arranged, Shares, MinOf, MaxOf, Mass;
    CountSign(digest);
    if observed == [] {
      assert observed + batch == batch;
    } else {
      ExtremesOfConcat(observed, batch);
    }
  }

  // ----- combining digests

  ghost predicate AllDescribe(digests: seq<TDigest>, lists: seq<seq<real>>) {
    |lists| == |digests| && forall i :: 0 <= i < |digests| ==> Describes(digests[i], lists[i])
  }

  /** Combining digests describes all their observations. */
  lemma CombineDescribes(digests: seq<TDigest>, lists: seq<seq<real>>)
    requires AllDescribe(digests, lists)
    ensures AllValid(digests) && Describes(Combine(digests), Flat(lists))
  {
    hide Partitions, Compress, SortByMean, MinOf, MaxOf, Mass, TDigest.Valid;
    AllCentroidsDescribe(digests, lists);
    ExtremesDescribe(digests, lists);
    CombineKeepsInvariant(digests);
    CombinePartitions(digests, Flat(lists));
  }

  lemma CombinePartitions(digests: seq<TDigest>, observed: seq<real>)
    requires AllValid(digests) && Partitions(AllCentroids(digests), observed)
    ensures Partitions(Combine(digests).centroids, observed)
  {
    hide Partitions, Compress, SortByMean, Shares;
    var all := AllCentroids(digests);
    if all != [] {
      AllCentroidsWhole(digests);
      SortKeepsWhole(all);
      SortedCompressionPartitions(all, observed, Shares(digests[0].maxSize, 1, TotalCount(digests)));
    }
  }

  lemma {:induction false} AllCentroidsDescribe(digests: seq<TDigest>, lists: seq<seq<real>>)
    requires AllDescribe(digests, lists)
    ensures AllValid(digests) && Partitions(AllCentroids(digests), Flat(lists))
    ensures TotalCount(digests) == |Flat(lists)| as real && TotalSum(digests) == Sum(Flat(lists))
  {
    hide TDigest.Valid, MinOf, MaxOf, Sum;
    if digests == [] {
      assert IsPartition([], [], []);
      NoSum();
    } else {
      hide Partitions;
      AllCentroidsDescribe(digests[1..], lists[1..]);
      assert Describes(digests[0], lists[0]);
      SumOfConcat(lists[0], Flat(lists[1..]));
      PartitionsConcat(digests[0].centroids, AllCentroids(digests[1..]), lists[0], Flat(lists[1..]));
    }
  }

  lemma NoSum()
    ensures Sum([]) == 0.0
  {
  }

  lemma {:induction false} ExtremesDescribe(digests: seq<TDigest>, lists: seq<seq<real>>)
    requires AllDescribe(digests, lists)
    ensures AllValid(digests)
    ensures Flat(lists) == [] <==> AllCentroids(digests) == []
    ensures Flat(lists) != [] ==>
              LeastMin(digests) == Some(MinOf(Flat(lists))) && GreatestMax(digests) == Some(MaxOf(Flat(lists)))
  {
    hide TDigest.Valid, MinOf, MaxOf, Sum, Partitions;
    if digests != [] {
      var rest := Flat(lists[1..]);
      ExtremesDescribe(digests[1..], lists[1..]);
      assert Describes(digests[0], lists[0]);
      EmptyTogether(digests[0], lists[0]);
      if lists[0] == [] {
        assert lists[0] + rest == rest;
      } else if rest == [] {
        assert lists[0] + rest == lists[0];
        NoExtremes(digests[1..]);
      } else {
        ExtremesOfConcat(lists[0], rest);
      }
    }
  }

  lemma EmptyTogether(digest: TDigest, observed: seq<real>)
    requires Describes(digest, observed)
    ensures digest.centroids == [] <==> observed == []
  {
    CountSign(digest);
  }
}
