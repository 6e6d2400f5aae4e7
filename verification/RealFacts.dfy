/** Small facts of real arithmetic that keep the nonlinear steps of the other proofs short. */
module RealFacts {

  lemma MulPos(a: real, b: real)
    requires a > 0.0 && b > 0.0
    ensures a * b > 0.0
  {
  }

  lemma MulMono(a: real, b: real, c: real)
    requires a <= b && c >= 0.0
    ensures a * c <= b * c
  {
  }

  lemma MulMonoStrict(a: real, b: real, c: real)
    requires a < b && c > 0.0
    ensures a * c < b * c
  {
  }

  lemma MulNonneg(a: real, b: real)
    requires a >= 0.0 && b >= 0.0
    ensures a * b >= 0.0
  {
  }

  lemma Commute(a: real, b: real)
    ensures a * b == b * a
  {
  }

  lemma DivMul(a: real, b: real)
    requires b != 0.0
    ensures (a / b) * b == a
  {
  }

  lemma MulDiv(a: real, b: real)
    requires b != 0.0
    ensures (a * b) / b == a
  {
  }

  /** a / c <= b when a <= b * c. */
  lemma DivBelow(a: real, b: real, c: real)
    requires c > 0.0 && a <= b * c
    ensures a / c <= b
  {
    DivMul(a, c);
    if a / c > b {
      MulMonoStrict(b, a / c, c);
    }
  }

  lemma DivAbove(a: real, b: real, c: real)
    requires c > 0.0 && b * c <= a
    ensures b <= a / c
  {
    DivMul(a, c);
    if a / c < b {
      MulMonoStrict(a / c, b, c);
    }
  }

  lemma CancelLess(x: real, y: real, c: real)
    requires c > 0.0 && x * c < y * c
    ensures x < y
  {
    if y <= x {
      MulMono(y, x, c);
    }
  }

  lemma DivMonoStrict(a: real, b: real, c: real)
    requires c > 0.0 && a < b
    ensures a / c < b / c
  {
    DivMul(a, c);
    DivMul(b, c);
    CancelLess(a / c, b / c, c);
  }
}
