/** Single steps of field arithmetic over the reals. They are stated one at a
    time because the solver's nonlinear real arithmetic does not find them by
    itself inside larger proofs. */
module RealField {

  lemma DivMul(x: real, y: real)
    requires y != 0.0
    ensures (x / y) * y == x
  {
  }

  lemma MulDiv(x: real, y: real)
    requires y != 0.0
    ensures (x * y) / y == x
  {
  }

  lemma ZeroFactor(x: real, y: real)
    requires y != 0.0 && x * y == 0.0
    ensures x == 0.0
  {
    MulDiv(x, y);
  }

  lemma NonZeroProduct(x: real, y: real)
    requires x != 0.0 && y != 0.0
    ensures x * y != 0.0
  {
    if x * y == 0.0 {
      ZeroFactor(x, y);
    }
  }

  lemma MulMatch(u: real, D: real, x: real)
    requires D != 0.0 && u * D == x
    ensures u == x / D
  {
    DivMul(x, D);
  }
}
