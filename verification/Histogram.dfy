/** The sparse histogram (aggregation/histogram.rs) and what it makes of a distribution (aggregation/mod.rs). */
module Histograms {
  import opened Buckets
  import opened Folds
  import opened IntFacts
  import opened Types

  type Counts = map<int, nat>

  function CountAt(h: Counts, b: int): nat {
    if b in h then h[b] else 0
  }

  /** One more value in the bucket of v. */
  function Record(h: Counts, v: int): Counts {
    h[Bucket(v) := CountAt(h, Bucket(v)) + 1]
  }

  /** A list of values, tallied. */
  function Tally(vs: seq<int>): Counts {
    Fold(Record, map[], vs)
  }

  class Histogram {
    var histogram: Counts

    constructor ()
      ensures histogram == map[]
    {
      histogram := map[];
    }

    method Accumulate(v: int)
      modifies this
      ensures histogram == Record(old(histogram), v)
    {
      var bucket := Bucket(v);
      if bucket in histogram {
        histogram := histogram[bucket := histogram[bucket] + 1];
      } else {
        histogram := histogram[bucket := 1];
      }
    }

    method Absorb(distribution: Distribution)
      modifies this
      ensures histogram == Fold(Record, old(histogram), distribution.Values())
      ensures forall vs :: SpreadsAs(distribution, vs) ==> histogram == Fold(Record, old(histogram), vs)
    {
      forall vs | SpreadsAs(distribution, vs) ensures vs == distribution.Values() {
        ValuesSpread(distribution, vs);
      }
      hide SpreadsAs;
      ghost var was := histogram;
      match distribution {
        case DI64(i) => Accumulate(i); FoldOne(Record, was, i);
        case DI32(i) => Accumulate(i); FoldOne(Record, was, i);
        case DU64(u) => Accumulate(AsI64(u)); FoldOne(Record, was, AsI64(u));
        case DU32(i) => Accumulate(i); FoldOne(Record, was, i);
        case Collection(values) =>
          var k := 0;
          while k < |values|
            invariant 0 <= k <= |values|
            invariant histogram == Fold(Record, was, values[..k])
          {
            Accumulate(values[k]);
            assert values[..k + 1][..k] == values[..k];
            k := k + 1;
          }
          assert values[..k] == values;
        case Timer(nanos) => Accumulate(AsI64(nanos)); FoldOne(Record, was, AsI64(nanos));
      }
    }

    method IntoMap() returns (counts: Counts)
      ensures counts == histogram
    {
      counts := histogram;
    }
  }

  // ----- what a tally holds

  /** How many of the values belong to bucket b. */
  function Hits(vs: seq<int>, b: int): nat {
    if vs == [] then 0 else Hits(vs[..|vs| - 1], b) + (if Bucket(vs[|vs| - 1]) == b then 1 else 0)
  }

  /** Every bucket has the number of its values, and only buckets with values are present. */
  lemma {:induction false} TallyCounts(vs: seq<int>, b: int)
    ensures CountAt(Tally(vs), b) == Hits(vs, b)
    ensures b in Tally(vs) <==> Hits(vs, b) > 0
    ensures b in Tally(vs) ==> IsBucket(b)
  {
    if vs != [] {
      TallyCounts(vs[..|vs| - 1], b);
      BucketIdempotent(vs[|vs| - 1]);
    }
  }

  lemma RecordCommutes()
    ensures Commutes(Record)
  {
    forall h, x, y ensures Record(Record(h, x), y) == Record(Record(h, y), x) {
      assert Record(Record(h, x), y) == Record(Record(h, y), x);
    }
  }

  /** The tally does not depend on the order of arrival. */
  lemma TallyIgnoresOrder(vs: seq<int>, ws: seq<int>)
    requires multiset(vs) == multiset(ws)
    ensures Tally(vs) == Tally(ws)
  {
    RecordCommutes();
    FoldIgnoresOrder(Record, map[], vs, ws);
  }

  // ----- the sum of all counts

  lemma {:induction false} HasLeast(s: set<int>)
    requires s != {}
    ensures exists k :: k in s && forall x :: x in s ==> k <= x
  {
    assert (forall x :: x !in s) ==> s == {};
    var k: int :| k in s;
    var rest := s - {k};
    if rest == {} {
      assert forall x :: x in s ==> x == k || x in rest;
    } else {
      HasLeast(rest);
      var j :| j in rest && forall x :: x in rest ==> j <= x;
      var least := if j < k then j else k;
      assert forall x :: x in s ==> x == k || x in rest;
      assert least in s && forall x :: x in s ==> least <= x;
    }
  }

  function Least(s: set<int>): (k: int)
    requires s != {}
    ensures k in s
    ensures forall x :: x in s ==> k <= x
  {
    HasLeast(s);
    var k :| k in s && forall x :: x in s ==> k <= x;
    k
  }

  /** The sum of the counts of all buckets. */
  function Total(h: Counts): nat
    decreases |h|
  {
    if h == map[] then 0 else
      var k := Least(h.Keys);
      h[k] + Total(Without(h, k))
  }

  function Without(h: Counts, k: int): (r: Counts)
    requires k in h
    ensures |r| < |h|
  {
    assert (h - {k}).Keys == h.Keys - {k};
    h - {k}
  }

  lemma {:induction false} TotalWithout(h: Counts, k: int)
    requires k in h
    ensures Total(h) == h[k] + Total(Without(h, k))
    decreases |h|
  {
    var j := Least(h.Keys);
    if j != k {
      TotalWithout(Without(h, j), k);
      assert Without(Without(h, j), k) == Without(Without(h, k), j);
      assert Least(Without(h, k).Keys) == j;
    }
  }

  lemma TotalOfRecord(h: Counts, v: int)
    ensures Total(Record(h, v)) == Total(h) + 1
  {
    hide Bucket, Total, IsBucket;
    var b := Bucket(v);
    TotalWithout(Record(h, v), b);
    if b in h {
      TotalWithout(h, b);
      assert Without(Record(h, v), b) == Without(h, b);
    } else {
      assert Without(Record(h, v), b) == h;
    }
  }

  /** No value is lost: the counts add up to the number of values. */
  lemma {:induction false} TallyTotal(vs: seq<int>)
    ensures Total(Tally(vs)) == |vs|
  {
    if vs != [] {
      TallyTotal(vs[..|vs| - 1]);
      TotalOfRecord(Tally(vs[..|vs| - 1]), vs[|vs| - 1]);
    }
  }

  // ----- how many buckets there can be

  function Step(c: nat, p: nat): nat {
    c * Pow10(p)
  }

  lemma StepsRise(c: nat, k: nat, p: nat)
    requires c < k
    ensures Step(c, p) < Step(k, p)
  {
    ProductsOrdered(c + 1, k, Pow10(p));
    assert (c + 1) * Pow10(p) == c * Pow10(p) + Pow10(p);
  }

  lemma DecadeEnds(p: nat)
    ensures Step(0, p) == 0 && Step(10, p) == Pow10(p + 1) && Step(100, p) == Pow10(p + 2)
  {
    Pow10Steps(p);
  }

  /** The steps of a decade from the c-th on. */
  function Steps(c: nat, p: nat): set<int>
    requires c <= 101
    decreases 101 - c
  {
    if c == 101 then {} else {Step(c, p)} + Steps(c + 1, p)
  }

  lemma {:induction false} StepsLie(c: nat, p: nat, b: int)
    requires 1 <= c <= 101 && b in Steps(c, p)
    ensures Step(c - 1, p) < b <= Step(100, p)
    decreases 101 - c
  {
    hide Step;
    StepsRise(c - 1, c, p);
    if c < 100 {
      StepsRise(c, 100, p);
    }
    if b != Step(c, p) {
      StepsLie(c + 1, p, b);
    }
  }

  lemma {:induction false} StepsSize(c: nat, p: nat)
    requires 1 <= c <= 101
    ensures |Steps(c, p)| == 101 - c
    decreases 101 - c
  {
    hide Step;
    if c < 101 {
      StepsSize(c + 1, p);
      if Step(c, p) in Steps(c + 1, p) {
        StepsLie(c + 1, p, Step(c, p));
        assert false;
      }
    }
  }

  lemma {:induction false} StepInSteps(c: nat, k: nat, p: nat)
    requires c <= k <= 100
    ensures Step(k, p) in Steps(c, p)
    decreases 101 - c
  {
    hide Step;
    if c < k {
      StepInSteps(c + 1, k, p);
    }
  }

  /** Zero and the buckets of the decades up to that many digits. */
  function BucketsUpTo(digits: nat): set<int>
    requires digits >= 2
  {
    if digits == 2 then {0} + Steps(1, 0) else BucketsUpTo(digits - 1) + Steps(11, digits - 2)
  }

  /** There are 101 buckets from 0 to 100 and 90 more for each further digit. */
  lemma {:induction false} BucketsUpToSize(digits: nat)
    requires digits >= 2
    ensures |BucketsUpTo(digits)| == 101 + 90 * (digits - 2)
    ensures forall b :: b in BucketsUpTo(digits) ==> b <= Pow10(digits)
  {
    hide Step, Steps, Pow10;
    if digits == 2 {
      UnionWithSteps({0}, 1, 0);
    } else {
      BucketsUpToSize(digits - 1);
      DecadeEnds(digits - 2);
      UnionWithSteps(BucketsUpTo(digits - 1), 11, digits - 2);
    }
  }

  /** The steps of a decade lie above everything below the decade. */
  lemma UnionWithSteps(lower: set<int>, c: nat, p: nat)
    requires 1 <= c <= 100 && forall b :: b in lower ==> b <= Step(c - 1, p)
    ensures |lower + Steps(c, p)| == |lower| + 101 - c
    ensures forall b :: b in lower + Steps(c, p) ==> b <= Pow10(p + 2)
  {
    hide Step, Steps, Pow10;
    DecadeEnds(p);
    StepsRise(c - 1, 100, p);
    StepsSize(c, p);
    forall b | b in Steps(c, p) ensures Step(c - 1, p) < b <= Pow10(p + 2) {
      StepsLie(c, p, b);
    }
    SizeOfUnion(lower, Steps(c, p));
  }

  lemma SizeOfUnion(a: set<int>, b: set<int>)
    requires a !! b
    ensures |a + b| == |a| + |b|
  {
  }

  lemma {:induction false} StepInBucketsUpTo(c: nat, p: nat, digits: nat)
    requires StepOf(c, p) && digits >= p + 2
    ensures Step(c, p) in BucketsUpTo(digits)
  {
    hide Step, Pow10, Steps;
    if digits > p + 2 {
      StepInBucketsUpTo(c, p, digits - 1);
    } else {
      StepInSteps(if p == 0 then 1 else 11, c, p);
    }
  }

  lemma BucketInRange(v: int, digits: nat)
    requires 0 <= v <= Pow10(digits) && digits >= 2
    ensures Bucket(v) in BucketsUpTo(digits)
  {
    if v == 0 {
      ZeroInBucketsUpTo(digits);
    } else {
      var c, p := StepAbove(v);
      DecadeFits(c, p, v, digits);
      StepInBucketsUpTo(c, p, digits);
    }
  }

  lemma DecadeFits(c: nat, p: nat, v: nat, digits: nat)
    requires StepOf(c, p) && (c - 1) * Pow10(p) < v <= Pow10(digits) && digits >= 2
    ensures p + 2 <= digits
  {
    if digits < p + 2 {
      Pow10Grows(digits, p + 1);
      Pow10Steps(p);
      ProductsOrdered(10, c - 1, Pow10(p));
    }
  }

  lemma {:induction false} ZeroInBucketsUpTo(digits: nat)
    requires digits >= 2
    ensures 0 in BucketsUpTo(digits)
  {
    hide Steps, Pow10;
    if digits > 2 {
      ZeroInBucketsUpTo(digits - 1);
    }
  }

  /** Memory stays bounded: values of up to that many digits never need more buckets, however many there are. */
  lemma TallyIsSmall(vs: seq<int>, digits: nat)
    requires digits >= 2 && forall i :: 0 <= i < |vs| ==> 0 <= vs[i] <= Pow10(digits)
    ensures |Tally(vs)| <= 101 + 90 * (digits - 2)
  {
    KeysInRange(vs, digits);
    BucketsUpToSize(digits);
    SubsetIsSmaller(Tally(vs).Keys, BucketsUpTo(digits));
  }

  lemma {:induction false} KeysInRange(vs: seq<int>, digits: nat)
    requires digits >= 2 && forall i :: 0 <= i < |vs| ==> 0 <= vs[i] <= Pow10(digits)
    ensures Tally(vs).Keys <= BucketsUpTo(digits)
  {
    if vs != [] {
      KeysInRange(vs[..|vs| - 1], digits);
      BucketInRange(vs[|vs| - 1], digits);
    }
  }

  lemma SubsetIsSmaller(a: set<int>, b: set<int>)
    requires a <= b
    ensures |a| <= |b|
  {
    SizeOfUnion(a, b - a);
    assert a + (b - a) == b;
  }
}
