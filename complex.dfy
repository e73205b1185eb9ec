/** Exact complex arithmetic over Dafny's `real`, standing in for numpy's
    complex128 values (rounding is not modelled). */
module ComplexArith {

  datatype Complex = Complex(re: real, im: real)

  type CVec = seq<Complex>
  type CMatrix = seq<seq<Complex>>

  const Zero: Complex := Complex(0.0, 0.0)

  function Add(a: Complex, b: Complex): Complex {
    Complex(a.re + b.re, a.im + b.im)
  }

  function Neg(a: Complex): Complex {
    Complex(-a.re, -a.im)
  }

  function Mul(a: Complex, b: Complex): Complex {
    Complex(a.re * b.re - a.im * b.im, a.re * b.im + a.im * b.re)
  }

  function Conj(a: Complex): Complex {
    Complex(a.re, -a.im)
  }

  /** Multiplication by a real number, as numpy does when it broadcasts an
      integer or float array against a complex one. */
  function Scale(r: real, a: Complex): Complex {
    Complex(r * a.re, r * a.im)
  }

  /** Entry of a vector, or Zero outside its range: lets sums over k < n be
      written with total functions. */
  function At(u: CVec, k: nat): Complex {
    if k < |u| then u[k] else Zero
  }

  function At2(h: CMatrix, i: nat, l: nat): Complex {
    if i < |h| && l < |h[i]| then h[i][l] else Zero
  }

  predicate IsSquare(h: CMatrix, n: nat) {
    |h| == n && forall i :: 0 <= i < n ==> |h[i]| == n
  }

  /** Exact equality of a square matrix with its conjugate transpose. */
  predicate IsHermitian(h: CMatrix) {
    IsSquare(h, |h|) &&
    forall a, b :: 0 <= a < |h| && 0 <= b < |h| ==> h[a][b] == Conj(h[b][a])
  }

  lemma MulComm(a: Complex, b: Complex)
    ensures Mul(a, b) == Mul(b, a)
  {
  }

  lemma MulAssoc(a: Complex, b: Complex, c: Complex)
    ensures Mul(Mul(a, b), c) == Mul(a, Mul(b, c))
  {
    var ab := Mul(a, b);
    var bc := Mul(b, c);
    calc {
      Mul(ab, c).re;
      (a.re * b.re - a.im * b.im) * c.re - (a.re * b.im + a.im * b.re) * c.im;
      a.re * (b.re * c.re - b.im * c.im) - a.im * (b.re * c.im + b.im * c.re);
      Mul(a, bc).re;
    }
    calc {
      Mul(ab, c).im;
      (a.re * b.re - a.im * b.im) * c.im + (a.re * b.im + a.im * b.re) * c.re;
      a.re * (b.re * c.im + b.im * c.re) + a.im * (b.re * c.re - b.im * c.im);
      Mul(a, bc).im;
    }
  }

  lemma MulAddLeft(a: Complex, b: Complex, c: Complex)
    ensures Mul(a, Add(b, c)) == Add(Mul(a, b), Mul(a, c))
  {
  }

  lemma MulZeroRight(a: Complex)
    ensures Mul(a, Zero) == Zero
  {
  }

  lemma ConjMul(a: Complex, b: Complex)
    ensures Conj(Mul(a, b)) == Mul(Conj(a), Conj(b))
  {
  }

  /** The imaginary part of a conjugate is the negated imaginary part. */
  lemma ImConj(a: Complex)
    ensures Conj(a).im == -a.im
  {
  }
}
