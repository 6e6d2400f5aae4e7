/** A fact about products of integers that the solver needs by name. */
module IntFacts {

  lemma ProductsOrdered(a: int, b: int, m: nat)
    requires a <= b
    ensures a * m <= b * m
  {
  }
}
