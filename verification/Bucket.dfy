/** Two-significant-figure decimal buckets (aggregation/bucket.rs), with the exact integer logarithm. */
module Buckets {
  import opened IntFacts
  import opened Types

  const FIGURES: nat := 2

  function Pow10(k: nat): (p: nat)
    ensures p >= 1
  {
    if k == 0 then 1 else 10 * Pow10(k - 1)
  }

  /** The least k with n <= 10^k. */
  function CeilLog10(n: nat): nat
    requires n >= 1
  {
    if n == 1 then 0 else 1 + CeilLog10((n + 9) / 10)
  }

  function Abs(v: int): nat {
    if v < 0 then -v else v
  }

  function Signum(v: int): int {
    if v < 0 then -1 else if v == 0 then 0 else 1
  }

  /** How many trailing figures are dropped. */
  function Power(n: nat): nat
    requires n >= 1
  {
    if CeilLog10(n) < FIGURES then 0 else CeilLog10(n) - FIGURES
  }

  function Magnitude(n: nat): (m: nat)
    requires n >= 1
    ensures m >= 1
  {
    Pow10(Power(n))
  }

  /** Division that rounds up. */
  function CeilDiv(n: nat, m: nat): nat
    requires m >= 1
  {
    (n + m - 1) / m
  }

  /** The bucket of a value: away from zero in both directions. */
  function Bucket(v: int): int {
    if v == 0 then 0 else Signum(v) * CeilDiv(Abs(v), Magnitude(Abs(v))) * Magnitude(Abs(v))
  }

  /** The bound below a bucket: one step of the value's own magnitude toward minus infinity. */
  function Below(v: int): int {
    if v == 0 then -1 else (Signum(v) * CeilDiv(Abs(v), Magnitude(Abs(v))) - 1) * Magnitude(Abs(v))
  }

  predicate IsBucket(b: int) {
    Bucket(b) == b
  }

  // ----- the decade of a positive value

  /** n has at most two figures, or 10^(p+1) < n <= 10^(p+2). */
  predicate InDecade(n: nat, p: nat) {
    1 <= n <= Pow10(p + 2) && (p > 0 ==> Pow10(p + 1) < n)
  }

  lemma {:induction false} CeilLog10Is(n: nat)
    requires n >= 1
    ensures n <= Pow10(CeilLog10(n))
    ensures CeilLog10(n) > 0 ==> Pow10(CeilLog10(n) - 1) < n
  {
    if n > 1 {
      var m := (n + 9) / 10;
      CeilLog10Is(m);
      assert 10 * m >= n && 10 * (m - 1) < n;
    }
  }

  lemma {:induction false} Pow10Grows(a: nat, b: nat)
    requires a <= b
    ensures Pow10(a) <= Pow10(b)
    ensures a < b ==> 10 * Pow10(a) <= Pow10(b)
  {
    if a < b {
      Pow10Grows(a, b - 1);
    }
  }

  lemma DecadeOf(n: nat)
    requires n >= 1
    ensures InDecade(n, Power(n))
  {
    CeilLog10Is(n);
    if CeilLog10(n) < FIGURES {
      Pow10Grows(CeilLog10(n), 2);
    }
  }

  lemma DecadeIsUnique(n: nat, p: nat, q: nat)
    requires InDecade(n, p) && InDecade(n, q)
    ensures p == q
  {
    if p < q {
      Pow10Grows(p + 2, q + 1);
    } else if q < p {
      Pow10Grows(q + 2, p + 1);
    }
  }

  lemma PowerIs(n: nat, p: nat)
    requires InDecade(n, p)
    ensures Power(n) == p && Magnitude(n) == Pow10(p)
  {
    DecadeOf(n);
    DecadeIsUnique(n, p, Power(n));
  }

  // ----- rounding up to a multiple

  lemma CeilDivIs(n: nat, m: nat)
    requires m >= 1
    ensures n <= CeilDiv(n, m) * m
    ensures (CeilDiv(n, m) - 1) * m < n
  {
    var q := CeilDiv(n, m);
    var r := (n + m - 1) % m;
    assert n + m - 1 == m * q + r;
    assert m * q == q * m;
    assert (q - 1) * m == q * m - m;
  }

  lemma CeilDivIsUnique(n: nat, m: nat, c: int)
    requires m >= 1 && (c - 1) * m < n <= c * m
    ensures CeilDiv(n, m) == c
  {
    CeilDivIs(n, m);
    var q := CeilDiv(n, m);
    if q < c {
      ProductsOrdered(q, c - 1, m);
    } else if c < q {
      ProductsOrdered(c, q - 1, m);
    }
  }

  // ----- the buckets of a decade: 11 to 100 steps of its magnitude (1 to 100 in the first)

  /** c steps in decade p. */
  predicate StepOf(c: nat, p: nat) {
    1 <= c <= 100 && (p > 0 ==> c >= 11)
  }

  lemma Pow10Steps(p: nat)
    ensures 100 * Pow10(p) == Pow10(p + 2) && 10 * Pow10(p) == Pow10(p + 1)
  {
  }

  /** The c-th step of a decade and everything down to the step before it round up to that step. */
  lemma RoundsUpToStep(n: nat, c: nat, p: nat)
    requires StepOf(c, p) && (c - 1) * Pow10(p) < n <= c * Pow10(p)
    ensures n >= 1 && InDecade(n, p) && Bucket(n) == c * Pow10(p)
    ensures Below(n) == (c - 1) * Pow10(p)
  {
    Pow10Steps(p);
    ProductsOrdered(c, 100, Pow10(p));
    ProductsOrdered(0, c - 1, Pow10(p));
    if p > 0 {
      ProductsOrdered(10, c - 1, Pow10(p));
    }
    PowerIs(n, p);
    CeilDivIsUnique(n, Pow10(p), c);
  }

  /** Every positive value lies within one step of a decade. */
  lemma StepAbove(n: nat) returns (c: nat, p: nat)
    requires n >= 1
    ensures StepOf(c, p) && (c - 1) * Pow10(p) < n <= c * Pow10(p)
    ensures Bucket(n) == c * Pow10(p)
  {
    p := Power(n);
    DecadeOf(n);
    Pow10Steps(p);
    c := CeilDiv(n, Pow10(p));
    CeilDivIs(n, Pow10(p));
    if c > 100 {
      ProductsOrdered(100, c - 1, Pow10(p));
    }
    if p > 0 && c < 11 {
      ProductsOrdered(c, 10, Pow10(p));
    }
    if c < 1 {
      ProductsOrdered(c, 0, Pow10(p));
    }
    RoundsUpToStep(n, c, p);
  }

  lemma StepIsBucket(c: nat, p: nat)
    requires StepOf(c, p)
    ensures c * Pow10(p) >= 1 && IsBucket(c * Pow10(p)) && Below(c * Pow10(p)) == (c - 1) * Pow10(p)
  {
    ProductsOrdered(1, c, Pow10(p));
    assert (c - 1) * Pow10(p) == c * Pow10(p) - Pow10(p);
    RoundsUpToStep(c * Pow10(p), c, p);
  }

  // ----- laws of the bucketing

  /** Symmetric around zero. */
  lemma BucketOdd(v: int)
    ensures Bucket(-v) == -Bucket(v)
  {
    var c, m := if v == 0 then 0 else CeilDiv(Abs(v), Magnitude(Abs(v))), if v == 0 then 1 else Magnitude(Abs(v));
    assert v != 0 ==> Abs(-v) == Abs(v) && Signum(-v) == -Signum(v);
    Negated(Signum(v), c, m);
  }

  lemma Negated(s: int, c: nat, m: nat)
    ensures (-s) * c * m == -(s * c * m)
  {
  }

  /** Rounding is away from zero and keeps the sign. */
  lemma BucketAwayFromZero(v: int)
    ensures v > 0 ==> Bucket(v) >= v
    ensures v < 0 ==> Bucket(v) <= v
    ensures v == 0 <==> Bucket(v) == 0
  {
    if v > 0 {
      var c, p := StepAbove(v);
    } else if v < 0 {
      var c, p := StepAbove(-v);
      BucketOdd(-v);
    }
  }

  /** A bucket is its own bucket. */
  lemma BucketIdempotent(v: int)
    ensures IsBucket(Bucket(v))
  {
    if v > 0 {
      var c, p := StepAbove(v);
      StepIsBucket(c, p);
    } else if v < 0 {
      var c, p := StepAbove(-v);
      StepIsBucket(c, p);
      BucketOdd(-v);
      BucketOdd(c * Pow10(p));
    }
  }

  /** A positive bucket is a step of its decade. */
  lemma BucketIsStep(b: int) returns (c: nat, p: nat)
    requires b > 0 && IsBucket(b)
    ensures StepOf(c, p) && b == c * Pow10(p) && Below(b) == (c - 1) * Pow10(p)
  {
    c, p := StepAbove(b);
    StepIsBucket(c, p);
  }

  /** The values of a positive bucket b are exactly those above Below(b) up to b. */
  lemma Preimage(b: int, v: int)
    requires b > 0 && IsBucket(b)
    ensures Bucket(v) == b <==> Below(b) < v <= b
    ensures 0 <= Below(b) < b
  {
    var c, p := BucketIsStep(b);
    ProductsOrdered(0, c - 1, Pow10(p));
    assert (c - 1) * Pow10(p) == c * Pow10(p) - Pow10(p);
    BucketAwayFromZero(v);
    if Below(b) < v <= b {
      RoundsUpToStep(v, c, p);
    } else if v > 0 && Bucket(v) == b {
      var c', p' := StepAbove(v);
      StepIsBucket(c', p');
    }
  }

  /** Bucketing keeps the order of values. */
  lemma BucketMonotone(v: int, w: int)
    requires v <= w
    ensures Bucket(v) <= Bucket(w)
  {
    BucketAwayFromZero(v);
    BucketAwayFromZero(w);
    if v > 0 {
      PositiveMonotone(v, w);
    } else if w < 0 {
      PositiveMonotone(-w, -v);
      BucketOdd(-v);
      BucketOdd(-w);
    }
  }

  lemma PositiveMonotone(v: int, w: int)
    requires 0 < v <= w
    ensures Bucket(v) <= Bucket(w)
  {
    BucketIdempotent(v);
    BucketAwayFromZero(v);
    BucketAwayFromZero(w);
    if Bucket(w) < Bucket(v) {
      Preimage(Bucket(v), v);
      Preimage(Bucket(v), w);
      assert false;
    }
  }

  /** The relative error is non-negative and below a tenth. */
  lemma BucketError(v: int)
    requires v != 0
    ensures 0 <= Abs(Bucket(v)) - Abs(v)
    ensures 10 * (Abs(Bucket(v)) - Abs(v)) < Abs(v)
  {
    var n := Abs(v);
    BucketOdd(v);
    BucketAwayFromZero(n);
    var c, p := StepAbove(n);
    assert (c - 1) * Pow10(p) == c * Pow10(p) - Pow10(p);
    Pow10Steps(p);
    if p > 0 {
      ProductsOrdered(10, c - 1, Pow10(p));
    }
  }

  // ----- the bound below a bucket

  lemma BelowPositiveIsBucket(b: int)
    requires b > 0 && IsBucket(b)
    ensures IsBucket(Below(b))
  {
    var c, p := BucketIsStep(b);
    if c == 1 {
      assert (c - 1) * Pow10(p) == 0;
    } else if p > 0 && c == 11 {
      assert 10 * Pow10(p) == 100 * Pow10(p - 1);
      StepIsBucket(100, p - 1);
    } else {
      StepIsBucket(c - 1, p);
    }
  }

  /** Below a bucket that is not negative there is no bucket between it and its lower bound, which is one itself. */
  lemma BelowIsPrevious(b: int, other: int)
    requires b >= 0 && IsBucket(b) && IsBucket(other) && other < b
    ensures Below(b) < b && IsBucket(Below(b)) && other <= Below(b)
  {
    if b == 0 {
      StepIsBucket(1, 0);
      BucketOdd(1);
    } else {
      BelowPositiveIsBucket(b);
      Preimage(b, other);
      Preimage(b, b);
    }
  }

  /** A power of ten from 100 on. */
  ghost predicate LargePowerOf10(n: int) {
    exists k: nat :: k >= 2 && n == Pow10(k)
  }

  lemma StepIsPower(c: nat, p: nat)
    requires StepOf(c, p)
    ensures LargePowerOf10(c * Pow10(p)) <==> c == 100
  {
    Pow10Steps(p);
    if c == 100 {
      assert c * Pow10(p) == Pow10(p + 2);
    } else if LargePowerOf10(c * Pow10(p)) {
      var k: nat :| k >= 2 && c * Pow10(p) == Pow10(k);
      Pow10Steps(k - 2);
      StepIsBucket(c, p);
      StepIsBucket(100, k - 2);
      ProductsOrdered(1, c, Pow10(p));
      RoundsUpToStep(c * Pow10(p), c, p);
      assert (100 - 1) * Pow10(k - 2) == 100 * Pow10(k - 2) - Pow10(k - 2);
      RoundsUpToStep(c * Pow10(p), 100, k - 2);
      DecadeIsUnique(c * Pow10(p), p, k - 2);
      SameFactor(c, 100, Pow10(p));
    }
  }

  lemma SameFactor(a: int, b: int, m: nat)
    requires m >= 1 && a * m == b * m
    ensures a == b
  {
    if a < b {
      ProductsOrdered(a + 1, b, m);
    } else if b < a {
      ProductsOrdered(b + 1, a, m);
    }
  }

  /** For a negative bucket the lower bound is the next bucket exactly when the bucket is not minus a power of ten
      from 100 on: -100 has the bound -101, which is no bucket. */
  lemma BelowNegative(b: int)
    requires b < 0 && IsBucket(b)
    ensures Below(b) < b
    ensures IsBucket(Below(b)) <==> !LargePowerOf10(-b)
    ensures forall other :: IsBucket(other) && other < b ==> other <= Below(b)
  {
    BucketOdd(b);
    var c, p := BucketIsStep(-b);
    StepIsPower(c, p);
    PowerOfStep(c, p);
    var up := (c + 1) * Pow10(p);
    assert (c + 1) * Pow10(p) == c * Pow10(p) + Pow10(p);
    assert Below(b) == -up by {
      CeilDivIsUnique(-b, Pow10(p), c);
      assert Signum(b) * c - 1 == -(c + 1);
      NegatedProduct(c + 1, Pow10(p));
    }
    BucketOdd(up);
    StepUp(c, p);
    forall other | IsBucket(other) && other < b ensures other <= Below(b) {
      BucketOdd(other);
      if -other < up {
        BetweenSteps(c, p, -other);
      }
    }
  }

  /** For minus a power of ten from 100 on it is one step of the decade before further down. */
  lemma BelowMinusPower(p: nat)
    ensures var power: int := Pow10(p + 2); Below(-power) == -power - Pow10(p)
  {
    Pow10Steps(p);
    PowerOfStep(100, p);
    CeilDivIsUnique(Pow10(p + 2), Pow10(p), 100);
    NegatedProduct(101, Pow10(p));
    var power: int := Pow10(p + 2);
    assert Signum(-power) * 100 - 1 == -101;
  }

  /** A value and its bucket have the same lower bound. */
  lemma BelowOfBucket(v: int)
    ensures Below(Bucket(v)) == Below(v) && Below(v) < Bucket(v)
  {
    if v != 0 {
      var n := Abs(v);
      var c, p := StepAbove(n);
      PowerOfStep(c, p);
      RoundsUpToStep(n, c, p);
      PowerIs(n, p);
      CeilDivIsUnique(n, Pow10(p), c);
      CeilDivIsUnique(c * Pow10(p), Pow10(p), c);
      BucketOdd(n);
      assert (c + 1) * Pow10(p) == c * Pow10(p) + Pow10(p);
      NegatedProduct(c + 1, Pow10(p));
      if v < 0 {
        assert Signum(v) * c - 1 == -(c + 1);
      }
    }
  }

  lemma PowerOfStep(c: nat, p: nat)
    requires StepOf(c, p)
    ensures c * Pow10(p) >= 1 && Magnitude(c * Pow10(p)) == Pow10(p)
    ensures (c - 1) * Pow10(p) == c * Pow10(p) - Pow10(p)
  {
    ProductsOrdered(1, c, Pow10(p));
    assert (c - 1) * Pow10(p) == c * Pow10(p) - Pow10(p);
    RoundsUpToStep(c * Pow10(p), c, p);
    PowerIs(c * Pow10(p), p);
  }

  lemma NegatedProduct(a: int, m: nat)
    ensures (-a) * m == -(a * m)
  {
  }

  /** One step up stays in the decade, except from its last step. */
  lemma StepUp(c: nat, p: nat)
    requires StepOf(c, p)
    ensures (c + 1) * Pow10(p) >= 1
    ensures IsBucket((c + 1) * Pow10(p)) <==> c != 100
  {
    ProductsOrdered(1, c + 1, Pow10(p));
    if c < 100 {
      StepIsBucket(c + 1, p);
    } else {
      Pow10Steps(p);
      assert 101 * Pow10(p) <= 11 * Pow10(p + 1);
      assert (11 - 1) * Pow10(p + 1) == 100 * Pow10(p);
      RoundsUpToStep(101 * Pow10(p), 11, p + 1);
    }
  }

  lemma BetweenSteps(c: nat, p: nat, n: int)
    requires StepOf(c, p) && c * Pow10(p) < n < (c + 1) * Pow10(p)
    ensures !IsBucket(n)
  {
    ProductsOrdered(1, c, Pow10(p));
    if c < 100 {
      RoundsUpToStep(n, c + 1, p);
    } else {
      Pow10Steps(p);
      assert (11 - 1) * Pow10(p + 1) == 100 * Pow10(p);
      RoundsUpToStep(n, 11, p + 1);
    }
  }

  // ----- the range of 64-bit integers

  lemma Pow17()
    ensures Pow10(17) == 100_000_000_000_000_000
    ensures Pow10(18) == 1_000_000_000_000_000_000 && Pow10(19) == 10_000_000_000_000_000_000
  {
    assert Pow10(4) == 10_000;
    assert Pow10(8) == 100_000_000;
    assert Pow10(12) == 1_000_000_000_000;
    assert Pow10(16) == 10_000_000_000_000_000;
  }

  const EDGE: int := 9_200_000_000_000_000_000
  const STEP: int := 100_000_000_000_000_000

  lemma EdgeBuckets()
    ensures IsBucket(EDGE) && IsBucket(EDGE + STEP) && Below(EDGE + STEP) == EDGE && Below(EDGE) == EDGE - STEP
    ensures Below(EDGE + 2 * STEP) == EDGE + STEP && IsBucket(EDGE + 2 * STEP)
  {
    Pow17();
    StepIsBucket(92, 17);
    StepIsBucket(93, 17);
    StepIsBucket(94, 17);
  }

  /** The bucket of a value fits 64 bits exactly when the value is at most 92 * 10^17 away from zero. */
  lemma BucketFits(v: int)
    ensures IsI64(Bucket(v)) <==> -EDGE <= v <= EDGE
  {
    EdgeBuckets();
    BucketOdd(v);
    BucketAwayFromZero(v);
    var n := Abs(v);
    if n <= EDGE {
      BucketMonotone(n, EDGE);
    } else {
      BucketAwayFromZero(n);
      Preimage(EDGE + STEP, EDGE + 1);
      BucketMonotone(EDGE + 1, n);
    }
  }

  /** The lower bound fits 64 bits exactly for values from -91 * 10^17 to 93 * 10^17: the lowest bucket that fits,
      -92 * 10^17, has a lower bound that does not. */
  lemma BelowFits(v: int)
    ensures IsI64(Below(v)) <==> -EDGE + STEP <= v <= EDGE + STEP
  {
    hide Bucket, Below, Pow10, LargePowerOf10;
    EdgeBuckets();
    BelowOfBucket(v);
    BucketIdempotent(v);
    BucketAwayFromZero(v);
    if v < 0 {
      LowEdgeBuckets();
      BelowNegative(Bucket(v));
      if v >= -EDGE + STEP {
        BucketMonotone(-EDGE + STEP, v);
        assert IsBucket(-EDGE) && -EDGE < Bucket(v);
      } else {
        BucketOdd(v);
        BucketOdd(Bucket(v));
        Preimage(EDGE, EDGE - STEP + 1);
        BucketMonotone(EDGE - STEP + 1, -v);
        if EDGE < -Bucket(v) < EDGE + STEP {
          BelowIsPrevious(EDGE + STEP, -Bucket(v));
        }
      }
    } else if v <= EDGE + STEP {
      BucketMonotone(v, EDGE + STEP);
      BelowIsPrevious(EDGE + STEP, EDGE);
      BelowFromMinusOne(Bucket(v));
      if Bucket(v) < EDGE + STEP {
        BelowIsPrevious(EDGE + STEP, Bucket(v));
      }
    } else {
      BelowIsPrevious(Bucket(v), EDGE + STEP);
    }
  }

  lemma BelowFromMinusOne(b: int)
    requires b >= 0 && IsBucket(b)
    ensures Below(b) >= -1
  {
    if b > 0 {
      Preimage(b, b);
    }
  }

  lemma LowEdgeBuckets()
    ensures IsBucket(-EDGE) && IsBucket(-EDGE + STEP) && Below(-EDGE) == -EDGE - STEP
  {
    EdgeBuckets();
    Pow17();
    StepIsBucket(91, 17);
    BucketOdd(EDGE);
    BucketOdd(EDGE - STEP);
    PowerOfStep(92, 17);
    CeilDivIsUnique(EDGE, Pow10(17), 92);
  }
}
