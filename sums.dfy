/** Finite sums over the indices k < n of a real- or complex-valued function,
    standing in for numpy's `sum` and for the contractions of `einsum` and
    `tensordot`. */
module Sums {
  import opened ComplexArith

  // ---------------------------------------------------------------- reals

  function Sum(n: nat, f: nat -> real): real
    decreases n
  {
    if n == 0 then 0.0 else Sum(n - 1, f) + f(n - 1)
  }

  lemma {:induction false} SumCongr(n: nat, f: nat -> real, g: nat -> real)
    requires forall k: nat :: k < n ==> f(k) == g(k)
    ensures Sum(n, f) == Sum(n, g)
  {
    if n > 0 { SumCongr(n - 1, f, g); }
  }

  lemma {:induction false} SumAdd(n: nat, f: nat -> real, g: nat -> real, h: nat -> real)
    requires forall k: nat :: k < n ==> h(k) == f(k) + g(k)
    ensures Sum(n, h) == Sum(n, f) + Sum(n, g)
  {
    if n > 0 { SumAdd(n - 1, f, g, h); }
  }

  lemma {:induction false} SumScale(n: nat, c: real, f: nat -> real, g: nat -> real)
    requires forall k: nat :: k < n ==> g(k) == c * f(k)
    ensures Sum(n, g) == c * Sum(n, f)
  {
    if n > 0 { SumScale(n - 1, c, f, g); }
  }

  /** A sum whose terms are all zero is zero. */
  lemma {:induction false} SumZero(n: nat, f: nat -> real)
    requires forall k: nat :: k < n ==> f(k) == 0.0
    ensures Sum(n, f) == 0.0
  {
    if n > 0 { SumZero(n - 1, f); }
  }

  /** Row a of a two-index function, and column b. */
  function Row(F: (nat, nat) -> real, a: nat): nat -> real {
    (b: nat) => F(a, b)
  }

  function Col(F: (nat, nat) -> real, b: nat): nat -> real {
    (a: nat) => F(a, b)
  }

  /** a |-> sum over b < m of F(a, b) */
  function RowSums(F: (nat, nat) -> real, m: nat): nat -> real {
    (a: nat) => Sum(m, Row(F, a))
  }

  /** b |-> sum over a < n of F(a, b) */
  function ColSums(F: (nat, nat) -> real, n: nat): nat -> real {
    (b: nat) => Sum(n, Col(F, b))
  }

  /** The order of a finite double sum does not matter. */
  lemma {:induction false} SumSwap(n: nat, m: nat, F: (nat, nat) -> real)
    ensures Sum(n, RowSums(F, m)) == Sum(m, ColSums(F, n))
  {
    if n == 0 {
      SumZero(m, ColSums(F, 0));
    } else {
      SumSwap(n - 1, m, F);
      forall b: nat | b < m
        ensures ColSums(F, n)(b) == ColSums(F, n - 1)(b) + Row(F, n - 1)(b)
      {
      }
      SumAdd(m, ColSums(F, n - 1), Row(F, n - 1), ColSums(F, n));
    }
  }

  /** F(a, b) == -F(b, a) for all a, b < n */
  predicate Antisymmetric(F: (nat, nat) -> real, n: nat) {
    forall a: nat, b: nat :: a < n && b < n ==> F(a, b) == -F(b, a)
  }

  /** The sum of an antisymmetric F over the square n x n is zero. */
  lemma AntisymmetricSumIsZero(n: nat, F: (nat, nat) -> real)
    requires Antisymmetric(F, n)
    ensures Sum(n, RowSums(F, n)) == 0.0
  {
    SumSwap(n, n, F);
    forall b: nat | b < n
      ensures ColSums(F, n)(b) == -1.0 * RowSums(F, n)(b)
    {
      SumScale(n, -1.0, Row(F, b), Col(F, b));
    }
    SumScale(n, -1.0, RowSums(F, n), ColSums(F, n));
  }

  /** g(a) == c * (sum over b < n of F(a, b)) for all a < n */
  predicate ScaledRowSums(g: nat -> real, c: real, F: (nat, nat) -> real, n: nat) {
    forall a: nat :: a < n ==> g(a) == c * Sum(n, Row(F, a))
  }

  /** ... and so is the sum of any multiple of its row sums. */
  lemma ScaledAntisymmetricSumIsZero(n: nat, F: (nat, nat) -> real, c: real, g: nat -> real)
    requires Antisymmetric(F, n)
    requires ScaledRowSums(g, c, F, n)
    ensures Sum(n, g) == 0.0
  {
    AntisymmetricSumIsZero(n, F);
    SumScale(n, c, RowSums(F, n), g);
  }

  // -------------------------------------------------------------- complex

  function CSum(n: nat, f: nat -> Complex): Complex
    decreases n
  {
    if n == 0 then Zero else Add(CSum(n - 1, f), f(n - 1))
  }

  lemma {:induction false} CSumCongr(n: nat, f: nat -> Complex, g: nat -> Complex)
    requires forall k: nat :: k < n ==> f(k) == g(k)
    ensures CSum(n, f) == CSum(n, g)
  {
    if n > 0 { CSumCongr(n - 1, f, g); }
  }

  lemma {:induction false} CSumAdd(n: nat, f: nat -> Complex, g: nat -> Complex, h: nat -> Complex)
    requires forall k: nat :: k < n ==> h(k) == Add(f(k), g(k))
    ensures CSum(n, h) == Add(CSum(n, f), CSum(n, g))
  {
    if n > 0 { CSumAdd(n - 1, f, g, h); }
  }

  /** Multiplication distributes over a sum from the left. */
  lemma {:induction false} CSumMulLeft(n: nat, c: Complex, f: nat -> Complex, g: nat -> Complex)
    requires forall k: nat :: k < n ==> g(k) == Mul(c, f(k))
    ensures CSum(n, g) == Mul(c, CSum(n, f))
  {
    if n == 0 {
      MulZeroRight(c);
    } else {
      CSumMulLeft(n - 1, c, f, g);
      MulAddLeft(c, CSum(n - 1, f), f(n - 1));
    }
  }

  /** Conjugation distributes over a sum. */
  lemma {:induction false} CSumConj(n: nat, f: nat -> Complex, g: nat -> Complex)
    requires forall k: nat :: k < n ==> g(k) == Conj(f(k))
    ensures CSum(n, g) == Conj(CSum(n, f))
  {
    if n > 0 { CSumConj(n - 1, f, g); }
  }

  lemma {:induction false} CSumZero(n: nat, f: nat -> Complex)
    requires forall k: nat :: k < n ==> f(k) == Zero
    ensures CSum(n, f) == Zero
  {
    if n > 0 { CSumZero(n - 1, f); }
  }

  function CRow(F: (nat, nat) -> Complex, a: nat): nat -> Complex {
    (b: nat) => F(a, b)
  }

  function CCol(F: (nat, nat) -> Complex, b: nat): nat -> Complex {
    (a: nat) => F(a, b)
  }

  function CRowSums(F: (nat, nat) -> Complex, m: nat): nat -> Complex {
    (a: nat) => CSum(m, CRow(F, a))
  }

  function CColSums(F: (nat, nat) -> Complex, n: nat): nat -> Complex {
    (b: nat) => CSum(n, CCol(F, b))
  }

  lemma {:induction false} CSumSwap(n: nat, m: nat, F: (nat, nat) -> Complex)
    ensures CSum(n, CRowSums(F, m)) == CSum(m, CColSums(F, n))
  {
    if n == 0 {
      CSumZero(m, CColSums(F, 0));
    } else {
      CSumSwap(n - 1, m, F);
      forall b: nat | b < m
        ensures CColSums(F, n)(b) == Add(CColSums(F, n - 1)(b), CRow(F, n - 1)(b))
      {
      }
      CSumAdd(m, CColSums(F, n - 1), CRow(F, n - 1), CColSums(F, n));
    }
  }
}
