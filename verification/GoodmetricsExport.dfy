/** The wire form of a digest (downstream/goodmetrics_downstream.rs, From<OnlineTdigest> and From<Centroid>):
    weights and the count are truncated to unsigned integers. */
module GoodmetricsExport {
  import opened Folds
  import opened Options
  import opened Centroids
  import opened Values
  import opened TDigests
  import opened DigestGroups
  import opened OnlineTdigests

  datatype WireCentroid = WireCentroid(mean: real, weight: nat)

  datatype WireDigest = WireDigest(centroids: seq<WireCentroid>, sum: real, count: nat, max: Option<real>, min: Option<real>)

  /** `as u64` of a float: truncation, and 0 for negative values. */
  function AsU64(x: real): nat {
    if x <= 0.0 then 0 else x.Floor
  }

  function ToWireCentroid(c: Centroid): WireCentroid {
    WireCentroid(c.mean, AsU64(c.weight))
  }

  function ToWire(digest: TDigest): WireDigest {
    WireDigest(seq(|digest.centroids|, i requires 0 <= i < |digest.centroids| => ToWireCentroid(digest.centroids[i])),
               digest.sum, AsU64(digest.count), digest.max, digest.min)
  }

  function WireWeight(cs: seq<WireCentroid>, n: nat): nat
    requires n <= |cs|
  {
    if n == 0 then 0 else WireWeight(cs, n - 1) + cs[n - 1].weight
  }

  // ----- what the wire form says

  /** The centroid is a group of observations: as many as its weight, with its mean as theirs. */
  predicate Averages(c: WireCentroid, group: seq<real>) {
    group != [] && c.weight == |group| && c.mean == Sum(group) / |group| as real
  }

  predicate Splits(cs: seq<WireCentroid>, groups: seq<seq<real>>, observed: seq<real>) {
    && |groups| == |cs| && (forall i :: 0 <= i < |cs| ==> Averages(cs[i], groups[i]))
    && multiset(Flat(groups)) == multiset(observed)
  }

  predicate Encloses(wire: WireDigest, observed: seq<real>) {
    && wire.min.Some? && wire.min.value in observed && wire.max.Some? && wire.max.value in observed
    && forall i :: 0 <= i < |observed| ==> wire.min.value <= observed[i] <= wire.max.value
  }

  /** The wire form says what was observed. Its centroids, in ascending order, split the observations into groups of
      which they are the averages; its count, sum, least and greatest are those of the observations. */
  ghost predicate WireDescribes(wire: WireDigest, observed: seq<real>) {
    && (exists groups :: Splits(wire.centroids, groups, observed))
    && (forall i, j :: 0 <= i < j < |wire.centroids| ==> wire.centroids[i].mean <= wire.centroids[j].mean)
    && wire.count == |observed| && wire.sum == Sum(observed)
    && (observed != [] ==> Encloses(wire, observed))
  }

  /** Draining a digest resets it in place and ships what it held: of whatever observations it stood for, that is what
      the wire form says, and afterwards it stands for none. */
  method Export(state: State) returns (wire: WireDigest)
    requires state.Valid()
    modifies state
    ensures state.Valid()
    ensures wire == ToWire(Next(old(state.View()), ResetMut).1.value)
    ensures state.View() == Next(old(state.View()), ResetMut).0
    ensures forall observed :: StandsFor(old(state.View()), observed)
              ==> WireDescribes(wire, observed) && StandsFor(state.View(), [])
  {
    hide Next, StandsFor, WireDescribes;
    ghost var before := state.View();
    var v := state.GetSnapshotAndReset();
    wire := Shipped(v);
    forall observed | StandsFor(before, observed)
      ensures WireDescribes(wire, observed) && StandsFor(state.View(), [])
    {
      ResetRefines(before, observed);
      WireOfSummary(v, observed);
    }
  }

  method Shipped(v: TDigest) returns (wire: WireDigest)
    ensures wire == ToWire(v)
  {
    var centroids: seq<WireCentroid> := [];
    for i := 0 to |v.centroids|
      invariant |centroids| == i && centroids == ToWire(v).centroids[..i]
    {
      centroids := centroids + [ToWireCentroid(v.centroids[i])];
    }
    wire := WireDigest(centroids, v.sum, AsU64(v.count), v.max, v.min);
  }

  lemma ResetRefines(s: Online, observed: seq<real>)
    requires StandsFor(s, observed)
    ensures Good(s) && Next(s, ResetMut).1.Some?
    ensures Summarizes(Next(s, ResetMut).1.value, observed) && StandsFor(Next(s, ResetMut).0, [])
  {
    hide Next, Summarizes;
    NextRefines(s, observed, ResetMut);
  }

  lemma WireOfGroup(c: Centroid, group: seq<real>)
    requires HoldsGroup(c, group)
    ensures Averages(ToWireCentroid(c), group)
  {
    MeanOfGroup(c, group);
  }

  /** The wire form of a digest that summarizes some observations describes them. */
  lemma WireOfSummary(digest: TDigest, observed: seq<real>)
    requires Summarizes(digest, observed)
    ensures WireDescribes(ToWire(digest), observed)
  {
    hide HoldsGroup, Averages, Whole, Sum, Encloses, ToWireCentroid;
    var groups :| IsPartition(digest.centroids, groups, observed);
    forall i | 0 <= i < |digest.centroids| ensures Averages(ToWire(digest).centroids[i], groups[i]) {
      WireOfGroup(digest.centroids[i], groups[i]);
    }
    assert Splits(ToWire(digest).centroids, groups, observed);
    MeansShipped(digest);
    if observed != [] {
      WireEncloses(digest, observed);
    }
  }

  lemma MeansShipped(digest: TDigest)
    requires digest.Valid()
    ensures var cs := ToWire(digest).centroids; forall i, j :: 0 <= i < j < |cs| ==> cs[i].mean <= cs[j].mean
  {
  }

  lemma WireEncloses(digest: TDigest, observed: seq<real>)
    requires observed != [] && digest.min == Some(MinOf(observed)) && digest.max == Some(MaxOf(observed))
    ensures Encloses(ToWire(digest), observed)
  {
    ExtremesBound(observed);
  }

  lemma {:induction false} NothingTruncated(digest: TDigest, n: nat)
    requires digest.Valid() && n <= |digest.centroids|
    ensures WireWeight(ToWire(digest).centroids, n) as real == WeightTo(digest.centroids, n)
  {
    if n > 0 {
      NothingTruncated(digest, n - 1);
      assert Whole(digest.centroids[n - 1].weight);
    }
  }

  /** Shipped weights lose nothing to truncation and add up to the shipped count, which is the number of
      observations. */
  lemma ShippedWeightsAddUp(digest: TDigest, observed: seq<real>)
    requires Summarizes(digest, observed)
    ensures ToWire(digest).count == |observed|
    ensures WireWeight(ToWire(digest).centroids, |digest.centroids|) == |observed|
    ensures ToWire(digest).sum == Sum(observed)
    ensures forall i :: 0 <= i < |digest.centroids| ==> ToWire(digest).centroids[i].weight as real == digest.centroids[i].weight
  {
    NothingTruncated(digest, |digest.centroids|);
    forall i | 0 <= i < |digest.centroids|
      ensures ToWire(digest).centroids[i].weight as real == digest.centroids[i].weight
    {
      assert Whole(digest.centroids[i].weight);
    }
  }
}
