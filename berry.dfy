/** berry_mu of blg_strain/berry.py: the Berry curvature and the orbital
    magnetic moment of every band, as sums over the other bands of products of
    matrix elements of the Hamiltonian's k-derivatives.

    Layouts: E is N x Nkx x Nky (band, kx, ky), Psi is N x N x Nkx x Nky
    (band, component, kx, ky), hdkx and hdky are N x N. */
module Berry {
  import opened ComplexArith
  import opened Sums
  import opened Arrays
  import opened Units
  import opened RealField

  // ------------------------------------------------------ matrix elements

  /** The terms conj(u[i]) * h[i][l] * v[l] of the contraction
      einsum('ijk,il,ljk->jk') at one grid point. */
  function BraketTerms(u: CVec, h: CMatrix, v: CVec): (nat, nat) -> Complex {
    (i: nat, l: nat) => Mul(Mul(Conj(At(u, i)), At2(h, i, l)), At(v, l))
  }

  /** <u|h|v> summed over both indices at once, as einsum does. */
  function Braket(u: CVec, h: CMatrix, v: CVec): Complex {
    CSum(|h|, CRowSums(BraketTerms(u, h, v), |h|))
  }

  /** <u|h|v> as tensordot(h, v) over h's last axis, then the product with
      conj(u) summed over the first axis. */
  function BraketTensordot(u: CVec, h: CMatrix, v: CVec): Complex {
    CSum(|h|, (i: nat) => Mul(Conj(At(u, i)), HApplied(h, v)(i)))
  }

  /** i |-> sum over l of h[i][l] * v[l] */
  function HApplied(h: CMatrix, v: CVec): nat -> Complex {
    (i: nat) => CSum(|h|, (l: nat) => Mul(At2(h, i, l), At(v, l)))
  }

  /** The two contraction orders give the same matrix element. */
  lemma BraketForms(u: CVec, h: CMatrix, v: CVec)
    ensures Braket(u, h, v) == BraketTensordot(u, h, v)
  {
    var n := |h|;
    var F := BraketTerms(u, h, v);
    forall i: nat | i < n
      ensures CRowSums(F, n)(i) == Mul(Conj(At(u, i)), HApplied(h, v)(i))
    {
      forall l: nat | l < n
        ensures CRow(F, i)(l) == Mul(Conj(At(u, i)), Mul(At2(h, i, l), At(v, l)))
      {
        MulAssoc(Conj(At(u, i)), At2(h, i, l), At(v, l));
      }
      CSumMulLeft(n, Conj(At(u, i)), (l: nat) => Mul(At2(h, i, l), At(v, l)), CRow(F, i));
    }
    CSumCongr(n, CRowSums(F, n), (i: nat) => Mul(Conj(At(u, i)), HApplied(h, v)(i)));
  }

  lemma TermConj(x: Complex, y: Complex, z: Complex, yT: Complex)
    requires yT == Conj(y)
    ensures Conj(Mul(Mul(Conj(x), y), z)) == Mul(Mul(Conj(z), yT), x)
  {
  }

  /** For a Hermitian h, swapping the vectors conjugates the element:
      <v|h|u> = conj(<u|h|v>). */
  lemma BraketHermitianSwap(u: CVec, h: CMatrix, v: CVec)
    requires IsHermitian(h)
    ensures Braket(v, h, u) == Conj(Braket(u, h, v))
  {
    var n := |h|;
    var F := BraketTerms(u, h, v);
    var G := BraketTerms(v, h, u);
    var CF := (a: nat, b: nat) => Conj(F(a, b));
    forall a: nat | a < n
      ensures CRowSums(CF, n)(a) == Conj(CRowSums(F, n)(a))
    {
      CSumConj(n, CRow(F, a), CRow(CF, a));
    }
    CSumConj(n, CRowSums(F, n), CRowSums(CF, n));
    CSumSwap(n, n, CF);
    forall b: nat | b < n
      ensures CColSums(CF, n)(b) == CRowSums(G, n)(b)
    {
      forall a: nat | a < n
        ensures CCol(CF, b)(a) == CRow(G, b)(a)
      {
        TermConj(At(u, a), At2(h, a, b), At(v, b), At2(h, b, a));
      }
      CSumCongr(n, CCol(CF, b), CRow(G, b));
    }
    CSumCongr(n, CColSums(CF, n), CRowSums(G, n));
  }

  // ------------------------------------------------ one grid point (j, k)

  /** The energies and eigenvectors of all N bands at one grid point:
      v[a] is the component vector of band a. */
  datatype Point = Point(e: seq<real>, v: seq<CVec>)

  function Vec(pt: Point, a: nat): CVec {
    if a < |pt.v| then pt.v[a] else []
  }

  /** The energies at a point are pairwise distinct: berry_mu divides by
      their differences without a guard. */
  predicate NonDegenerate(pt: Point) {
    forall a, b :: 0 <= a < |pt.e| && 0 <= b < |pt.e| && a != b ==> pt.e[a] != pt.e[b]
  }

  /** prod1 = <n|hdkx|m> and prod2 = <m|hdky|n>. */
  function Prod1(pt: Point, hx: CMatrix, n: nat, m: nat): Complex {
    Braket(Vec(pt, n), hx, Vec(pt, m))
  }

  function Prod2(pt: Point, hy: CMatrix, n: nat, m: nat): Complex {
    Braket(Vec(pt, m), hy, Vec(pt, n))
  }

  /** prod1 * prod2 */
  function PairProduct(pt: Point, hx: CMatrix, hy: CMatrix, n: nat, m: nat): Complex {
    Mul(Prod1(pt, hx, n, m), Prod2(pt, hy, n, m))
  }

  /** Whether the pair (n, m) contributes: the loop skips n == m, and a
      degenerate pair, where berry_mu divides by zero, is given no value
      (the lemmas about the pair terms require NonDegenerate). */
  predicate Contributes(pt: Point, n: nat, m: nat) {
    n != m && n < |pt.e| && m < |pt.e| && pt.e[n] != pt.e[m]
  }

  /** Omega[m, n] = Im(prod1 * prod2 / (e_n - e_m) ** 2), zero on the diagonal;
      the division by the square is written as two divisions by the
      difference, which is the same over the reals. */
  function PairCurvature(pt: Point, hx: CMatrix, hy: CMatrix, n: nat, m: nat): (r: real)
    ensures n == m ==> r == 0.0
    ensures Contributes(pt, n, m) ==> r * (pt.e[n] - pt.e[m]) == PairMoment(pt, hx, hy, n, m)
  {
    if Contributes(pt, n, m) then
      var d := pt.e[n] - pt.e[m];
      DivMul(PairProduct(pt, hx, hy, n, m).im / d, d);
      PairProduct(pt, hx, hy, n, m).im / d / d
    else 0.0
  }

  /** Mu[m, n] = Im(prod1 * prod2 / (e_n - e_m)), zero on the diagonal. */
  function PairMoment(pt: Point, hx: CMatrix, hy: CMatrix, n: nat, m: nat): (r: real)
    ensures n == m ==> r == 0.0
    ensures Contributes(pt, n, m) ==> r * (pt.e[n] - pt.e[m]) == PairProduct(pt, hx, hy, n, m).im
  {
    if Contributes(pt, n, m) then
      var d := pt.e[n] - pt.e[m];
      DivMul(PairProduct(pt, hx, hy, n, m).im, d);
      PairProduct(pt, hx, hy, n, m).im / d
    else 0.0
  }

  function CurvatureTable(pt: Point, hx: CMatrix, hy: CMatrix): (nat, nat) -> real {
    (n: nat, m: nat) => PairCurvature(pt, hx, hy, n, m)
  }

  function MomentTable(pt: Point, hx: CMatrix, hy: CMatrix): (nat, nat) -> real {
    (n: nat, m: nat) => PairMoment(pt, hx, hy, n, m)
  }

  /** Omega_n = -2 * sum over m of Omega[m, n] */
  function OmegaAt(pt: Point, hx: CMatrix, hy: CMatrix, n: nat): real {
    -2.0 * Sum(|pt.e|, Row(CurvatureTable(pt, hx, hy), n))
  }

  /** n |-> Omega_n, the curvatures of all bands at one point */
  function Omegas(pt: Point, hx: CMatrix, hy: CMatrix): nat -> real {
    (n: nat) => OmegaAt(pt, hx, hy, n)
  }

  /** The unit conversion of the magnetic moment: x |-> -q / hbar * x / muB */
  function MomentScale(c: Constants, x: real): real
    requires Physical(c)
  {
    -c.q / c.hbar * x / c.muB
  }

  /** Mu_n = -q / hbar * (sum over m of Mu[m, n]) / muB */
  function MuAt(pt: Point, hx: CMatrix, hy: CMatrix, c: Constants, n: nat): real
    requires Physical(c)
  {
    MomentScale(c, Sum(|pt.e|, Row(MomentTable(pt, hx, hy), n)))
  }

  /** The real-number steps of the two symmetry lemmas below. */
  lemma FlippedOverSquare(x: real, y: real, en: real, em: real)
    requires y == -x && en != em
    ensures y / (em - en) / (em - en) == -(x / (en - em) / (en - em))
  {
    var d := en - em;
    assert em - en == -d;
    assert y / (-d) == x / d;
    assert (x / d) / (-d) == -((x / d) / d);
  }

  lemma FlippedOverDifference(x: real, y: real, en: real, em: real)
    requires y == -x && en != em
    ensures y / (em - en) == x / (en - em)
  {
  }

  /** The product prod1 * prod2 of the pair (m, n) is the conjugate of that
      of (n, m) when both derivative matrices are Hermitian. */
  lemma SwappedProduct(pt: Point, hx: CMatrix, hy: CMatrix, n: nat, m: nat)
    requires IsHermitian(hx) && IsHermitian(hy)
    ensures PairProduct(pt, hx, hy, m, n) == Conj(PairProduct(pt, hx, hy, n, m))
  {
    BraketHermitianSwap(Vec(pt, n), hx, Vec(pt, m));
    BraketHermitianSwap(Vec(pt, m), hy, Vec(pt, n));
    ConjMul(Prod1(pt, hx, n, m), Prod2(pt, hy, n, m));
  }

  /** With Hermitian hdkx and hdky the curvature term of (n, m) is minus that
      of (m, n). */
  lemma CurvatureAntisymmetric(pt: Point, hx: CMatrix, hy: CMatrix, n: nat, m: nat)
    requires IsHermitian(hx) && IsHermitian(hy) && NonDegenerate(pt)
    ensures PairCurvature(pt, hx, hy, m, n) == -PairCurvature(pt, hx, hy, n, m)
  {
    if Contributes(pt, n, m) {
      SwappedProduct(pt, hx, hy, n, m);
      FlippedOverSquare(PairProduct(pt, hx, hy, n, m).im, PairProduct(pt, hx, hy, m, n).im, pt.e[n], pt.e[m]);
    }
  }

  /** ... while the moment term is the same for (n, m) and (m, n). */
  lemma MomentSymmetric(pt: Point, hx: CMatrix, hy: CMatrix, n: nat, m: nat)
    requires IsHermitian(hx) && IsHermitian(hy) && NonDegenerate(pt)
    ensures PairMoment(pt, hx, hy, m, n) == PairMoment(pt, hx, hy, n, m)
  {
    if Contributes(pt, n, m) {
      SwappedProduct(pt, hx, hy, n, m);
      FlippedOverDifference(PairProduct(pt, hx, hy, n, m).im, PairProduct(pt, hx, hy, m, n).im, pt.e[n], pt.e[m]);
    }
  }

  lemma CurvatureTableAntisymmetric(pt: Point, hx: CMatrix, hy: CMatrix)
    requires IsHermitian(hx) && IsHermitian(hy) && NonDegenerate(pt)
    ensures Antisymmetric(CurvatureTable(pt, hx, hy), |pt.e|)
  {
    forall a: nat, b: nat | a < |pt.e| && b < |pt.e|
      ensures CurvatureTable(pt, hx, hy)(a, b) == -CurvatureTable(pt, hx, hy)(b, a)
    {
      CurvatureAntisymmetric(pt, hx, hy, b, a);
    }
  }

  /** Hence the curvatures of all bands at a point add up to zero. */
  lemma CurvatureSumsToZero(pt: Point, hx: CMatrix, hy: CMatrix)
    requires IsHermitian(hx) && IsHermitian(hy) && NonDegenerate(pt)
    ensures Sum(|pt.e|, Omegas(pt, hx, hy)) == 0.0
  {
    CurvatureTableAntisymmetric(pt, hx, hy);
    OmegasScaleRows(pt, hx, hy);
    ScaledAntisymmetricSumIsZero(|pt.e|, CurvatureTable(pt, hx, hy), -2.0, Omegas(pt, hx, hy));
  }

  lemma OmegasScaleRows(pt: Point, hx: CMatrix, hy: CMatrix)
    ensures ScaledRowSums(Omegas(pt, hx, hy), -2.0, CurvatureTable(pt, hx, hy), |pt.e|)
  {
  }

  // --------------------------------------------------------- whole fields

  /** The bands at grid point (j, k). */
  function PointOf(E: Field3<real>, Psi: Field4<Complex>, N: nat, nx: nat, ny: nat, j: nat, k: nat): (pt: Point)
    requires Shape3(E, N, nx, ny) && Shape4(Psi, N, N, nx, ny) && j < nx && k < ny
    ensures |pt.e| == N && |pt.v| == N
    ensures forall a :: 0 <= a < N ==> pt.e[a] == E[a][j][k]
    ensures forall a, c :: 0 <= a < N && 0 <= c < N ==> |pt.v[a]| == N && pt.v[a][c] == Psi[a][c][j][k]
    ensures forall a :: 0 <= a < N ==> pt.v[a] == Column(Psi[a], j, k)
  {
    Point(seq(N, a requires 0 <= a < N => E[a][j][k]),
          seq(N, a requires 0 <= a < N => Column(Psi[a], j, k)))
  }

  /** The Omega that berry_mu returns: Omega[n][j][k] is OmegaAt of the bands
      at (j, k). */
  function OmegaField(E: Field3<real>, Psi: Field4<Complex>, hx: CMatrix, hy: CMatrix, N: nat, nx: nat, ny: nat)
    : (r: Field3<real>)
    requires Shape3(E, N, nx, ny) && Shape4(Psi, N, N, nx, ny)
    ensures Shape3(r, N, nx, ny)
    ensures forall n, j, k :: 0 <= n < N && 0 <= j < nx && 0 <= k < ny ==>
              r[n][j][k] == OmegaAt(PointOf(E, Psi, N, nx, ny, j, k), hx, hy, n)
  {
    seq(N, n requires 0 <= n < N =>
      seq(nx, j requires 0 <= j < nx =>
        seq(ny, k requires 0 <= k < ny => OmegaAt(PointOf(E, Psi, N, nx, ny, j, k), hx, hy, n))))
  }

  function MuField(E: Field3<real>, Psi: Field4<Complex>, hx: CMatrix, hy: CMatrix, c: Constants,
                   N: nat, nx: nat, ny: nat): (r: Field3<real>)
    requires Shape3(E, N, nx, ny) && Shape4(Psi, N, N, nx, ny) && Physical(c)
    ensures Shape3(r, N, nx, ny)
    ensures forall n, j, k :: 0 <= n < N && 0 <= j < nx && 0 <= k < ny ==>
              r[n][j][k] == MuAt(PointOf(E, Psi, N, nx, ny, j, k), hx, hy, c, n)
  {
    seq(N, n requires 0 <= n < N =>
      seq(nx, j requires 0 <= j < nx =>
        seq(ny, k requires 0 <= k < ny => MuAt(PointOf(E, Psi, N, nx, ny, j, k), hx, hy, c, n))))
  }

  /** The outputs at (j, k) depend on E and Psi at (j, k) only. */
  lemma Locality(E1: Field3<real>, Psi1: Field4<Complex>, E2: Field3<real>, Psi2: Field4<Complex>,
                 hx: CMatrix, hy: CMatrix, c: Constants, N: nat, nx: nat, ny: nat, j: nat, k: nat)
    requires Shape3(E1, N, nx, ny) && Shape4(Psi1, N, N, nx, ny)
    requires Shape3(E2, N, nx, ny) && Shape4(Psi2, N, N, nx, ny)
    requires Physical(c) && j < nx && k < ny
    requires forall a :: 0 <= a < N ==> E1[a][j][k] == E2[a][j][k]
    requires forall a, b :: 0 <= a < N && 0 <= b < N ==> Psi1[a][b][j][k] == Psi2[a][b][j][k]
    ensures forall n :: 0 <= n < N ==>
              OmegaField(E1, Psi1, hx, hy, N, nx, ny)[n][j][k] == OmegaField(E2, Psi2, hx, hy, N, nx, ny)[n][j][k] &&
              MuField(E1, Psi1, hx, hy, c, N, nx, ny)[n][j][k] == MuField(E2, Psi2, hx, hy, c, N, nx, ny)[n][j][k]
  {
    var p1 := PointOf(E1, Psi1, N, nx, ny, j, k);
    var p2 := PointOf(E2, Psi2, N, nx, ny, j, k);
    forall a | 0 <= a < N ensures p1.v[a] == p2.v[a] {
    }
    assert p1.e == p2.e;
    assert p1 == p2;
  }

  // ------------------------------------------------ the two product routes

  /** einsum('ijk,il,ljk->jk', psi_n.conj(), hdkx, psi_m) and the same for
      hdky with the bands exchanged: prod1 and prod2 at every grid point. */
  function EinsumProducts(Psi: Field4<Complex>, hx: CMatrix, hy: CMatrix, n: nat, m: nat, N: nat, nx: nat, ny: nat)
    : (r: (Field2<Complex>, Field2<Complex>))
    requires Shape4(Psi, N, N, nx, ny) && n < N && m < N
    ensures Shape2(r.0, nx, ny) && Shape2(r.1, nx, ny)
    ensures forall j, k :: 0 <= j < nx && 0 <= k < ny ==>
              r.0[j][k] == Braket(Column(Psi[n], j, k), hx, Column(Psi[m], j, k)) &&
              r.1[j][k] == Braket(Column(Psi[m], j, k), hy, Column(Psi[n], j, k))
  {
    (seq(nx, j requires 0 <= j < nx =>
       seq(ny, k requires 0 <= k < ny => Braket(Column(Psi[n], j, k), hx, Column(Psi[m], j, k)))),
     seq(nx, j requires 0 <= j < nx =>
       seq(ny, k requires 0 <= k < ny => Braket(Column(Psi[m], j, k), hy, Column(Psi[n], j, k)))))
  }

  /** np.tensordot(h, psi, axes=([-1], [0])): d[i][j][k] = sum over l of
      h[i][l] * psi[l][j][k]. */
  function Tensordot(h: CMatrix, psi: Field3<Complex>, N: nat, nx: nat, ny: nat): (d: Field3<Complex>)
    requires Shape3(psi, N, nx, ny)
    ensures Shape3(d, N, nx, ny)
    ensures forall i, j, k :: 0 <= i < N && 0 <= j < nx && 0 <= k < ny ==>
              d[i][j][k] == HApplied(h, Column(psi, j, k))(i)
  {
    seq(N, i requires 0 <= i < N =>
      seq(nx, j requires 0 <= j < nx =>
        seq(ny, k requires 0 <= k < ny => HApplied(h, Column(psi, j, k))(i))))
  }

  /** np.sum(np.multiply(a.conj(), d), axis=0) */
  function SumConjProduct(a: Field3<Complex>, d: Field3<Complex>, N: nat, nx: nat, ny: nat): (r: Field2<Complex>)
    requires Shape3(a, N, nx, ny) && Shape3(d, N, nx, ny)
    ensures Shape2(r, nx, ny)
    ensures forall j, k :: 0 <= j < nx && 0 <= k < ny ==>
              r[j][k] == CSum(N, (i: nat) => Mul(Conj(At(Column(a, j, k), i)), At(Column(d, j, k), i)))
  {
    seq(nx, j requires 0 <= j < nx =>
      seq(ny, k requires 0 <= k < ny => CSum(N, (i: nat) => Mul(Conj(At(Column(a, j, k), i)), At(Column(d, j, k), i)))))
  }

  /** The tensordot route: D1 = tensordot(hdkx, psi_m), D2 = tensordot(hdky,
      psi_n), then the conjugate products summed over the first axis. */
  function TensordotProducts(Psi: Field4<Complex>, hx: CMatrix, hy: CMatrix, n: nat, m: nat, N: nat, nx: nat, ny: nat)
    : (r: (Field2<Complex>, Field2<Complex>))
    requires Shape4(Psi, N, N, nx, ny) && n < N && m < N
    ensures Shape2(r.0, nx, ny) && Shape2(r.1, nx, ny)
  {
    (SumConjProduct(Psi[n], Tensordot(hx, Psi[m], N, nx, ny), N, nx, ny),
     SumConjProduct(Psi[m], Tensordot(hy, Psi[n], N, nx, ny), N, nx, ny))
  }

  /** One tensordot-route product equals the einsum-route matrix element. */
  lemma TensordotEntry(a: Field3<Complex>, h: CMatrix, b: Field3<Complex>, N: nat, nx: nat, ny: nat, j: nat, k: nat)
    requires Shape3(a, N, nx, ny) && Shape3(b, N, nx, ny) && IsSquare(h, N) && j < nx && k < ny
    ensures SumConjProduct(a, Tensordot(h, b, N, nx, ny), N, nx, ny)[j][k] == Braket(Column(a, j, k), h, Column(b, j, k))
  {
    var d := Tensordot(h, b, N, nx, ny);
    var u, v := Column(a, j, k), Column(b, j, k);
    forall i: nat | i < N
      ensures Mul(Conj(At(u, i)), At(Column(d, j, k), i)) == Mul(Conj(At(u, i)), HApplied(h, v)(i))
    {
    }
    CSumCongr(N, (i: nat) => Mul(Conj(At(u, i)), At(Column(d, j, k), i)),
                 (i: nat) => Mul(Conj(At(u, i)), HApplied(h, v)(i)));
    BraketForms(u, h, v);
  }

  /** The einsum and tensordot strategies yield identical prod1 and prod2. */
  lemma ProductStrategiesAgree(Psi: Field4<Complex>, hx: CMatrix, hy: CMatrix, n: nat, m: nat, N: nat, nx: nat, ny: nat)
    requires Shape4(Psi, N, N, nx, ny) && n < N && m < N && IsSquare(hx, N) && IsSquare(hy, N)
    ensures TensordotProducts(Psi, hx, hy, n, m, N, nx, ny) == EinsumProducts(Psi, hx, hy, n, m, N, nx, ny)
  {
    var t := TensordotProducts(Psi, hx, hy, n, m, N, nx, ny);
    var e := EinsumProducts(Psi, hx, hy, n, m, N, nx, ny);
    forall j, k | 0 <= j < nx && 0 <= k < ny
      ensures t.0[j][k] == e.0[j][k] && t.1[j][k] == e.1[j][k]
    {
      TensordotEntry(Psi[n], hx, Psi[m], N, nx, ny, j, k);
      TensordotEntry(Psi[m], hy, Psi[n], N, nx, ny, j, k);
    }
    Ext2(t.0, e.0, nx, ny);
    Ext2(t.1, e.1, nx, ny);
  }

  // ------------------------------------------------------------ berry_mu

  /** The array4 contents as a nested sequence. */
  function Snapshot(a: array4<real>): (s: Field4<real>)
    reads a
    ensures Shape4(s, a.Length0, a.Length1, a.Length2, a.Length3)
    ensures forall b, c, j, k :: 0 <= b < a.Length0 && 0 <= c < a.Length1 && 0 <= j < a.Length2 && 0 <= k < a.Length3 ==>
              s[b][c][j][k] == a[b, c, j, k]
  {
    seq(a.Length0, b requires 0 <= b < a.Length0 reads a =>
      seq(a.Length1, c requires 0 <= c < a.Length1 reads a =>
        seq(a.Length2, j requires 0 <= j < a.Length2 reads a =>
          seq(a.Length3, k requires 0 <= k < a.Length3 reads a => a[b, c, j, k]))))
  }

  /** T.sum(axis=0) followed by the scaling x |-> s(x). */
  function SumFirstAxis(T: Field4<real>, N: nat, nx: nat, ny: nat): (r: Field3<real>)
    requires Shape4(T, N, N, nx, ny)
    ensures Shape3(r, N, nx, ny)
    ensures forall n, j, k :: 0 <= n < N && 0 <= j < nx && 0 <= k < ny ==>
              r[n][j][k] == Sum(N, (m: nat) => if m < N then T[m][n][j][k] else 0.0)
  {
    seq(N, n requires 0 <= n < N =>
      seq(nx, j requires 0 <= j < nx =>
        seq(ny, k requires 0 <= k < ny => Sum(N, (m: nat) => if m < N then T[m][n][j][k] else 0.0))))
  }

  /** Omega = -2 * Omega */
  function CurvatureUnits(a: Field3<real>, N: nat, nx: nat, ny: nat): (r: Field3<real>)
    requires Shape3(a, N, nx, ny)
    ensures Shape3(r, N, nx, ny)
    ensures forall n, j, k :: 0 <= n < N && 0 <= j < nx && 0 <= k < ny ==> r[n][j][k] == -2.0 * a[n][j][k]
  {
    seq(N, n requires 0 <= n < N =>
      seq(nx, j requires 0 <= j < nx =>
        seq(ny, k requires 0 <= k < ny => -2.0 * a[n][j][k])))
  }

  /** Mu = -q / hbar * Mu / muB */
  function MomentUnits(a: Field3<real>, c: Constants, N: nat, nx: nat, ny: nat): (r: Field3<real>)
    requires Shape3(a, N, nx, ny) && Physical(c)
    ensures Shape3(r, N, nx, ny)
    ensures forall n, j, k :: 0 <= n < N && 0 <= j < nx && 0 <= k < ny ==>
              r[n][j][k] == MomentScale(c, a[n][j][k])
  {
    seq(N, n requires 0 <= n < N =>
      seq(nx, j requires 0 <= j < nx =>
        seq(ny, k requires 0 <= k < ny => MomentScale(c, a[n][j][k]))))
  }

  /** A table T with T[m][n][j][k] = PairCurvature(n, m) at (j, k), summed
      over its first axis and scaled, is the specified Omega. */
  lemma CurvatureTableSums(T: Field4<real>, E: Field3<real>, Psi: Field4<Complex>, hx: CMatrix, hy: CMatrix,
                           N: nat, nx: nat, ny: nat)
    requires Shape4(T, N, N, nx, ny) && Shape3(E, N, nx, ny) && Shape4(Psi, N, N, nx, ny)
    requires forall m, n, j, k :: 0 <= m < N && 0 <= n < N && 0 <= j < nx && 0 <= k < ny ==>
               T[m][n][j][k] == PairCurvature(PointOf(E, Psi, N, nx, ny, j, k), hx, hy, n, m)
    ensures CurvatureUnits(SumFirstAxis(T, N, nx, ny), N, nx, ny) == OmegaField(E, Psi, hx, hy, N, nx, ny)
  {
    var r := CurvatureUnits(SumFirstAxis(T, N, nx, ny), N, nx, ny);
    var o := OmegaField(E, Psi, hx, hy, N, nx, ny);
    forall n, j, k | 0 <= n < N && 0 <= j < nx && 0 <= k < ny
      ensures r[n][j][k] == o[n][j][k]
    {
      var pt := PointOf(E, Psi, N, nx, ny, j, k);
      SumCongr(N, (m: nat) => if m < N then T[m][n][j][k] else 0.0, Row(CurvatureTable(pt, hx, hy), n));
    }
    Ext3(r, o, N, nx, ny);
  }

  lemma MomentTableSums(T: Field4<real>, E: Field3<real>, Psi: Field4<Complex>, hx: CMatrix, hy: CMatrix,
                        c: Constants, N: nat, nx: nat, ny: nat)
    requires Shape4(T, N, N, nx, ny) && Shape3(E, N, nx, ny) && Shape4(Psi, N, N, nx, ny) && Physical(c)
    requires forall m, n, j, k :: 0 <= m < N && 0 <= n < N && 0 <= j < nx && 0 <= k < ny ==>
               T[m][n][j][k] == PairMoment(PointOf(E, Psi, N, nx, ny, j, k), hx, hy, n, m)
    ensures MomentUnits(SumFirstAxis(T, N, nx, ny), c, N, nx, ny) == MuField(E, Psi, hx, hy, c, N, nx, ny)
  {
    var r := MomentUnits(SumFirstAxis(T, N, nx, ny), c, N, nx, ny);
    var o := MuField(E, Psi, hx, hy, c, N, nx, ny);
    forall n, j, k | 0 <= n < N && 0 <= j < nx && 0 <= k < ny
      ensures r[n][j][k] == o[n][j][k]
    {
      var pt := PointOf(E, Psi, N, nx, ny, j, k);
      SumCongr(N, (m: nat) => if m < N then T[m][n][j][k] else 0.0, Row(MomentTable(pt, hx, hy), n));
    }
    Ext3(r, o, N, nx, ny);
  }

  /** The energies at every grid point are pairwise distinct. */
  predicate Distinct(E: Field3<real>, N: nat, nx: nat, ny: nat)
    requires Shape3(E, N, nx, ny)
  {
    forall a, b, j, k :: 0 <= a < N && 0 <= b < N && a != b && 0 <= j < nx && 0 <= k < ny ==>
      E[a][j][k] != E[b][j][k]
  }

  /** Distinct energies on the grid make every grid point non-degenerate. */
  lemma DistinctPoints(E: Field3<real>, Psi: Field4<Complex>, N: nat, nx: nat, ny: nat, j: nat, k: nat)
    requires Shape3(E, N, nx, ny) && Shape4(Psi, N, N, nx, ny) && Distinct(E, N, nx, ny)
    requires j < nx && k < ny
    ensures NonDegenerate(PointOf(E, Psi, N, nx, ny, j, k))
  {
  }

  /** The Berry curvatures of berry_mu's output add up to zero over the bands
      at every grid point. */
  lemma OmegaFieldSumsToZero(E: Field3<real>, Psi: Field4<Complex>, hx: CMatrix, hy: CMatrix,
                             N: nat, nx: nat, ny: nat, j: nat, k: nat)
    requires Shape3(E, N, nx, ny) && Shape4(Psi, N, N, nx, ny) && Distinct(E, N, nx, ny)
    requires IsHermitian(hx) && IsHermitian(hy) && j < nx && k < ny
    ensures Sum(N, (n: nat) => if n < N then OmegaField(E, Psi, hx, hy, N, nx, ny)[n][j][k] else 0.0) == 0.0
  {
    var pt := PointOf(E, Psi, N, nx, ny, j, k);
    DistinctPoints(E, Psi, N, nx, ny, j, k);
    CurvatureSumsToZero(pt, hx, hy);
    var om := OmegaField(E, Psi, hx, hy, N, nx, ny);
    var F := (n: nat) => if n < N then om[n][j][k] else 0.0;
    forall n: nat | n < N
      ensures F(n) == Omegas(pt, hx, hy)(n)
    {
      assert om[n][j][k] == OmegaAt(pt, hx, hy, n);
    }
    SumCongr(N, F, Omegas(pt, hx, hy));
  }

  /** The values the loop body writes at Omega[m, n] and Mu[m, n] are the
      pair terms of (n, m). */
  lemma PairEntries(E: Field3<real>, Psi: Field4<Complex>, hx: CMatrix, hy: CMatrix,
                    N: nat, nx: nat, ny: nat, n: nat, m: nat, j: nat, k: nat)
    requires Shape3(E, N, nx, ny) && Shape4(Psi, N, N, nx, ny) && Distinct(E, N, nx, ny)
    requires n < N && m < N && n != m && j < nx && k < ny
    ensures var p := EinsumProducts(Psi, hx, hy, n, m, N, nx, ny);
            var z := Mul(p.0[j][k], p.1[j][k]);
            var pt := PointOf(E, Psi, N, nx, ny, j, k);
            && E[n][j][k] - E[m][j][k] != 0.0
            && PairCurvature(pt, hx, hy, n, m) == z.im / (E[n][j][k] - E[m][j][k]) / (E[n][j][k] - E[m][j][k])
            && PairMoment(pt, hx, hy, n, m) == z.im / (E[n][j][k] - E[m][j][k])
  {
    var pt := PointOf(E, Psi, N, nx, ny, j, k);
    assert Vec(pt, n) == Column(Psi[n], j, k) && Vec(pt, m) == Column(Psi[m], j, k);
    assert Contributes(pt, n, m);
  }

  /** The table entry that the pair loop leaves at [a, b, j, k] once it has
      processed band b against band a. */
  ghost predicate Filled(om: array4<real>, mu: array4<real>, E: Field3<real>, Psi: Field4<Complex>,
                         hx: CMatrix, hy: CMatrix, N: nat, nx: nat, ny: nat, n: nat, m: nat)
    reads om, mu
    requires Shape3(E, N, nx, ny) && Shape4(Psi, N, N, nx, ny)
    requires om.Length0 == N && om.Length1 == N && om.Length2 == nx && om.Length3 == ny
    requires mu.Length0 == N && mu.Length1 == N && mu.Length2 == nx && mu.Length3 == ny
  {
    forall a, b, j, k :: 0 <= a < N && 0 <= b < N && 0 <= j < nx && 0 <= k < ny ==>
      om[a, b, j, k] == (if b < n || (b == n && a < m)
                         then PairCurvature(PointOf(E, Psi, N, nx, ny, j, k), hx, hy, b, a) else 0.0) &&
      mu[a, b, j, k] == (if b < n || (b == n && a < m)
                         then PairMoment(PointOf(E, Psi, N, nx, ny, j, k), hx, hy, b, a) else 0.0)
  }

  /** One pass of the loop body for n != m: prod1 and prod2 by the chosen
      strategy, then Omega[m, n] and Mu[m, n] at every grid point. */
  method FillPair(om: array4<real>, mu: array4<real>, E: Field3<real>, Psi: Field4<Complex>,
                  hdkx: CMatrix, hdky: CMatrix, N: nat, nx: nat, ny: nat, n: nat, m: nat, einsum: bool)
    requires Shape3(E, N, nx, ny) && Shape4(Psi, N, N, nx, ny) && Distinct(E, N, nx, ny)
    requires IsSquare(hdkx, N) && IsSquare(hdky, N)
    requires om.Length0 == N && om.Length1 == N && om.Length2 == nx && om.Length3 == ny
    requires mu.Length0 == N && mu.Length1 == N && mu.Length2 == nx && mu.Length3 == ny
    requires om != mu && n < N && m < N && n != m
    modifies om, mu
    ensures forall a, b, j, k :: 0 <= a < N && 0 <= b < N && 0 <= j < nx && 0 <= k < ny ==>
              om[a, b, j, k] == (if a == m && b == n
                                 then PairCurvature(PointOf(E, Psi, N, nx, ny, j, k), hdkx, hdky, n, m)
                                 else old(om[a, b, j, k])) &&
              mu[a, b, j, k] == (if a == m && b == n
                                 then PairMoment(PointOf(E, Psi, N, nx, ny, j, k), hdkx, hdky, n, m)
                                 else old(mu[a, b, j, k]))
  {
    var prods := if einsum then EinsumProducts(Psi, hdkx, hdky, n, m, N, nx, ny)
                 else TensordotProducts(Psi, hdkx, hdky, n, m, N, nx, ny);
    ProductStrategiesAgree(Psi, hdkx, hdky, n, m, N, nx, ny);
    var prod1, prod2 := prods.0, prods.1;
    forall j, k | 0 <= j < nx && 0 <= k < ny {
      om[m, n, j, k] := Mul(prod1[j][k], prod2[j][k]).im / (E[n][j][k] - E[m][j][k]) / (E[n][j][k] - E[m][j][k]);
    }
    forall j, k | 0 <= j < nx && 0 <= k < ny {
      mu[m, n, j, k] := Mul(prod1[j][k], prod2[j][k]).im / (E[n][j][k] - E[m][j][k]);
    }
    forall j, k | 0 <= j < nx && 0 <= k < ny
      ensures om[m, n, j, k] == PairCurvature(PointOf(E, Psi, N, nx, ny, j, k), hdkx, hdky, n, m)
      ensures mu[m, n, j, k] == PairMoment(PointOf(E, Psi, N, nx, ny, j, k), hdkx, hdky, n, m)
    {
      PairEntries(E, Psi, hdkx, hdky, N, nx, ny, n, m, j, k);
    }
  }

  /** berry_mu: the pair loop fills Omega[m, n] and Mu[m, n] for m != n from
      prod1 and prod2 (by either strategy), the diagonal keeps its zero
      initialisation, and the sums over the first axis are rescaled. */
  method BerryMu(E: Field3<real>, Psi: Field4<Complex>, hdkx: CMatrix, hdky: CMatrix, c: Constants,
                 N: nat, nx: nat, ny: nat, einsum: bool) returns (Omega: Field3<real>, Mu: Field3<real>)
    requires Shape3(E, N, nx, ny) && Shape4(Psi, N, N, nx, ny)
    requires IsSquare(hdkx, N) && IsSquare(hdky, N) && Physical(c)
    requires Distinct(E, N, nx, ny)
    ensures Omega == OmegaField(E, Psi, hdkx, hdky, N, nx, ny)
    ensures Mu == MuField(E, Psi, hdkx, hdky, c, N, nx, ny)
  {
    var om := new real[N, N, nx, ny]((a, b, j, k) => 0.0);
    var mu := new real[N, N, nx, ny]((a, b, j, k) => 0.0);
    var n := 0;
    while n < N
      invariant 0 <= n <= N
      invariant Filled(om, mu, E, Psi, hdkx, hdky, N, nx, ny, n, 0)
    {
      var m := 0;
      while m < N
        invariant 0 <= m <= N
        invariant Filled(om, mu, E, Psi, hdkx, hdky, N, nx, ny, n, m)
      {
        if n != m {
          FillPair(om, mu, E, Psi, hdkx, hdky, N, nx, ny, n, m, einsum);
        }
        m := m + 1;
      }
      n := n + 1;
    }
    var omT, muT := Snapshot(om), Snapshot(mu);
    CurvatureTableSums(omT, E, Psi, hdkx, hdky, N, nx, ny);
    MomentTableSums(muT, E, Psi, hdkx, hdky, c, N, nx, ny);
    Omega := CurvatureUnits(SumFirstAxis(omT, N, nx, ny), N, nx, ny);
    Mu := MomentUnits(SumFirstAxis(muT, N, nx, ny), c, N, nx, ny);
  }
}
