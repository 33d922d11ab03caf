/**
 * Sign and order facts about products of reals, stated one at a time so the
 * solver is never left to find a nonlinear step on its own.
 */
module RealFacts {

  lemma MulNonNeg(a: real, b: real)
    requires a >= 0.0 && b >= 0.0
    ensures a * b >= 0.0
  {
  }

  lemma MulPos(a: real, b: real)
    requires a > 0.0 && b > 0.0
    ensures a * b > 0.0
  {
  }

  lemma MulMono(a: real, b: real, c: real)
    requires a <= b && c >= 0.0
    ensures a * c <= b * c
  {
    MulNonNeg(b - a, c);
  }

  lemma NonPosFactor(x: real, c: real)
    requires c > 0.0 && x * c <= 0.0
    ensures x <= 0.0
  {
  }

  /** A positive factor keeps the sign of the other one. */
  lemma PositiveFactor(x: real, c: real)
    requires c > 0.0
    ensures x * c > 0.0 <==> x > 0.0
  {
  }
}
