/** Small facts about products and quotients of reals.

    Multiplication of variables is hard for a solver that has other things to think about, so
    each of these is proved on its own, and the proofs that need one call it with the factors
    they have. */
module Reals {
  lemma Undivided(a: real, n: real)
    requires n != 0.0
    ensures (a / n) * n == a
  {
  }

  lemma ZeroFactor(a: real, b: real)
    requires b > 0.0 && a * b == 0.0
    ensures a == 0.0
  {
  }

  lemma PositiveProduct(a: real, b: real)
    requires a >= 0.0 && b > 0.0
    ensures a * b >= 0.0 && (a > 0.0 ==> a * b > 0.0)
  {
  }

  lemma DistributeReal(a: real, b: real, c: real)
    ensures (a + b) * c == a * c + b * c
  {
  }
}
