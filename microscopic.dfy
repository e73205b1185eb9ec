/** blg_strain/microscopic.py: the effective-mass tensor from the band
    curvature, the Fermi-Dirac occupation of electrons and holes, and the scan
    of the occupation along the edges of k space. */
module Microscopic {
  import opened Arrays
  import opened Units
  import opened RealField

  // ------------------------------------------------------------ 2 x 2 algebra

  /** A 2 x 2 real matrix [[a, b], [c, d]], the last two axes of meff. */
  datatype Mat2 = Mat2(a: real, b: real, c: real, d: real)

  const Identity := Mat2(1.0, 0.0, 0.0, 1.0)

  function Det(m: Mat2): real {
    m.a * m.d - m.b * m.c
  }

  function MatMul(x: Mat2, y: Mat2): Mat2 {
    Mat2(x.a * y.a + x.b * y.c, x.a * y.b + x.b * y.d,
         x.c * y.a + x.d * y.c, x.c * y.b + x.d * y.d)
  }

  function ScaleM(s: real, m: Mat2): Mat2 {
    Mat2(s * m.a, s * m.b, s * m.c, s * m.d)
  }

  /** np.linalg.inv of one 2 x 2 block followed by the division by m_e. */
  function InverseOver(m: Mat2, me: real): Mat2
    requires Det(m) != 0.0 && me != 0.0
  {
    var D := Det(m);
    Mat2(m.d / D / me, -m.b / D / me, -m.c / D / me, m.a / D / me)
  }

  // The field facts below, like those of RealField, are stated one step at
  // a time.

  /** (x / D / s) * (s * y) == (x / D) * y */
  lemma CancelScale(x: real, y: real, D: real, s: real)
    requires D != 0.0 && s != 0.0
    ensures (x / D / s) * (s * y) == (x / D) * y
  {
    DivMul(x / D, s);
    assert (x / D / s) * s * y == (x / D / s) * (s * y);
  }

  /** (x1 / D) * y1 + (x2 / D) * y2 == (x1 * y1 + x2 * y2) / D */
  lemma SumOver(x1: real, y1: real, x2: real, y2: real, D: real)
    requires D != 0.0
    ensures (x1 / D) * y1 + (x2 / D) * y2 == (x1 * y1 + x2 * y2) / D
  {
    var u1 := x1 / D;
    var u2 := x2 / D;
    DivMul(x1, D);
    DivMul(x2, D);
    var t := u1 * y1 + u2 * y2;
    assert t * D == (u1 * D) * y1 + (u2 * D) * y2;
    MulMatch(t, D, x1 * y1 + x2 * y2);
  }

  /** One entry of InverseOver(m, s) * (s * m) */
  lemma Entry(x1: real, y1: real, x2: real, y2: real, D: real, s: real, v: real)
    requires D != 0.0 && s != 0.0 && x1 * y1 + x2 * y2 == v
    ensures (x1 / D / s) * (s * y1) + (x2 / D / s) * (s * y2) == v / D
  {
    CancelScale(x1, y1, D, s);
    CancelScale(x2, y2, D, s);
    SumOver(x1, y1, x2, y2, D);
  }

  /** One entry of (s * m) * InverseOver(m, s) */
  lemma EntryLeft(x1: real, y1: real, x2: real, y2: real, D: real, s: real, v: real)
    requires D != 0.0 && s != 0.0 && x1 * y1 + x2 * y2 == v
    ensures (s * y1) * (x1 / D / s) + (s * y2) * (x2 / D / s) == v / D
  {
    Entry(x1, y1, x2, y2, D, s, v);
  }

  lemma DetForms(m: Mat2)
    ensures m.d * m.a + -m.b * m.c == Det(m)
    ensures -m.c * m.b + m.a * m.d == Det(m)
    ensures m.a * m.d + m.b * -m.c == Det(m)
    ensures m.c * -m.b + m.d * m.a == Det(m)
  {
  }

  lemma RightDiagonal(m: Mat2, me: real)
    requires Det(m) != 0.0 && me != 0.0
    ensures var p := MatMul(InverseOver(m, me), ScaleM(me, m)); p.a == 1.0 && p.d == 1.0
  {
    var D := Det(m);
    assert D / D == 1.0;
    DetForms(m);
    Entry(m.d, m.a, -m.b, m.c, D, me, D);
    Entry(-m.c, m.b, m.a, m.d, D, me, D);
  }

  lemma RightOffDiagonal(m: Mat2, me: real)
    requires Det(m) != 0.0 && me != 0.0
    ensures var p := MatMul(InverseOver(m, me), ScaleM(me, m)); p.b == 0.0 && p.c == 0.0
  {
    var D := Det(m);
    assert 0.0 / D == 0.0;
    Entry(m.d, m.b, -m.b, m.d, D, me, 0.0);
    Entry(-m.c, m.a, m.a, m.c, D, me, 0.0);
  }

  lemma LeftDiagonal(m: Mat2, me: real)
    requires Det(m) != 0.0 && me != 0.0
    ensures var p := MatMul(ScaleM(me, m), InverseOver(m, me)); p.a == 1.0 && p.d == 1.0
  {
    var D := Det(m);
    assert D / D == 1.0;
    DetForms(m);
    EntryLeft(m.d, m.a, -m.c, m.b, D, me, D);
    EntryLeft(-m.b, m.c, m.a, m.d, D, me, D);
  }

  lemma LeftOffDiagonal(m: Mat2, me: real)
    requires Det(m) != 0.0 && me != 0.0
    ensures var p := MatMul(ScaleM(me, m), InverseOver(m, me)); p.b == 0.0 && p.c == 0.0
  {
    var D := Det(m);
    assert 0.0 / D == 0.0;
    EntryLeft(-m.b, m.a, m.a, m.b, D, me, 0.0);
    EntryLeft(m.d, m.c, -m.c, m.d, D, me, 0.0);
  }

  /** The block that meff_func returns is a two-sided inverse of
      m_e * oneoverm, whenever oneoverm is invertible. */
  lemma InverseOverIsInverse(m: Mat2, me: real)
    requires Det(m) != 0.0 && me != 0.0
    ensures MatMul(InverseOver(m, me), ScaleM(me, m)) == Identity
    ensures MatMul(ScaleM(me, m), InverseOver(m, me)) == Identity
  {
    RightDiagonal(m, me);
    RightOffDiagonal(m, me);
    LeftDiagonal(m, me);
    LeftOffDiagonal(m, me);
  }

  // ---------------------------------------------------------------- meff_func

  /** Why meff_func raises: np.gradient refuses the grid (a spacing array
      whose length is not that of its axis, or an axis with fewer than
      edge_order + 1 = 3 points), the band axis is not of length 4, or
      np.linalg.inv meets a singular block. */
  datatype MeffError = GradientShape | BandCountNot4 | SingularMatrix

  datatype Result<T> = Ok(value: T) | Err(error: MeffError)

  /** np.gradient(E, ky, kx, axis=(1, 2), edge_order=2) accepts the grid. */
  predicate GradientAccepts(kx: seq<real>, ky: seq<real>, ny: nat, nx: nat) {
    |ky| == ny && |kx| == nx && ny >= 3 && nx >= 3
  }

  /** The block oneoverm[n, j, i] that meff_func assembles from the second
      derivatives of band n at (ky[j], kx[i]). The derivatives are inputs:
      E_dkx_dkx, E_dky_dkx, E_dkx_dky, E_dky_dky in this order. The
      division by hbar ** 2 is written as two divisions by hbar, the same
      over the reals. */
  function OneOverM(dxx: Field3<real>, dyx: Field3<real>, dxy: Field3<real>, dyy: Field3<real>,
                    c: Constants, N: nat, ny: nat, nx: nat, n: nat, j: nat, i: nat): (r: Mat2)
    requires Shape3(dxx, N, ny, nx) && Shape3(dyx, N, ny, nx) && Shape3(dxy, N, ny, nx) && Shape3(dyy, N, ny, nx)
    requires Physical(c) && n < N && j < ny && i < nx
    ensures ScaleM(c.hbar, ScaleM(c.hbar, r)) == Mat2(dxx[n][j][i], dyx[n][j][i], dxy[n][j][i], dyy[n][j][i])
  {
    var h := c.hbar;
    TimesSquare(dxx[n][j][i], h);
    TimesSquare(dyx[n][j][i], h);
    TimesSquare(dxy[n][j][i], h);
    TimesSquare(dyy[n][j][i], h);
    Mat2(dxx[n][j][i] / h / h, dyx[n][j][i] / h / h, dxy[n][j][i] / h / h, dyy[n][j][i] / h / h)
  }

  /** h * (h * (x / h / h)) == x */
  lemma TimesSquare(x: real, h: real)
    requires h != 0.0
    ensures h * (h * (x / h / h)) == x
  {
    DivMul(x / h, h);
    DivMul(x, h);
  }

  /** Some block of oneoverm is singular. */
  predicate AnySingular(dxx: Field3<real>, dyx: Field3<real>, dxy: Field3<real>, dyy: Field3<real>,
                        c: Constants, N: nat, ny: nat, nx: nat)
    requires Shape3(dxx, N, ny, nx) && Shape3(dyx, N, ny, nx) && Shape3(dxy, N, ny, nx) && Shape3(dyy, N, ny, nx)
    requires Physical(c)
  {
    exists n, j, i :: 0 <= n < N && 0 <= j < ny && 0 <= i < nx &&
      Det(OneOverM(dxx, dyx, dxy, dyy, c, N, ny, nx, n, j, i)) == 0.0
  }

  /** The blocks of a rank-5 array with trailing 2 x 2 axes. */
  function Blocks(o: array5<real>): (m: Field3<Mat2>)
    reads o
    requires o.Length3 == 2 && o.Length4 == 2
    ensures Shape3(m, o.Length0, o.Length1, o.Length2)
    ensures forall n, j, i :: 0 <= n < o.Length0 && 0 <= j < o.Length1 && 0 <= i < o.Length2 ==>
              m[n][j][i] == Mat2(o[n, j, i, 0, 0], o[n, j, i, 0, 1], o[n, j, i, 1, 0], o[n, j, i, 1, 1])
  {
    seq(o.Length0, n requires 0 <= n < o.Length0 reads o =>
      seq(o.Length1, j requires 0 <= j < o.Length1 reads o =>
        seq(o.Length2, i requires 0 <= i < o.Length2 reads o =>
          Mat2(o[n, j, i, 0, 0], o[n, j, i, 0, 1], o[n, j, i, 1, 0], o[n, j, i, 1, 1]))))
  }

  /** np.linalg.inv(oneoverm) / m_e over the first three axes. */
  function InvertBlocks(m: Field3<Mat2>, me: real, N: nat, ny: nat, nx: nat): (r: Field3<Mat2>)
    requires Shape3(m, N, ny, nx) && me != 0.0
    requires forall n, j, i :: 0 <= n < N && 0 <= j < ny && 0 <= i < nx ==> Det(m[n][j][i]) != 0.0
    ensures Shape3(r, N, ny, nx)
    ensures forall n, j, i :: 0 <= n < N && 0 <= j < ny && 0 <= i < nx ==>
              MatMul(r[n][j][i], ScaleM(me, m[n][j][i])) == Identity &&
              MatMul(ScaleM(me, m[n][j][i]), r[n][j][i]) == Identity
  {
    forall n, j, i | 0 <= n < N && 0 <= j < ny && 0 <= i < nx
      ensures MatMul(InverseOver(m[n][j][i], me), ScaleM(me, m[n][j][i])) == Identity
      ensures MatMul(ScaleM(me, m[n][j][i]), InverseOver(m[n][j][i], me)) == Identity
    {
      InverseOverIsInverse(m[n][j][i], me);
    }
    seq(N, n requires 0 <= n < N =>
      seq(ny, j requires 0 <= j < ny =>
        seq(nx, i requires 0 <= i < nx => InverseOver(m[n][j][i], me))))
  }

  /** oneoverm = zeros((N, Nky, Nkx, 2, 2)) and its four slice assignments,
      each second derivative divided by hbar ** 2. */
  method AssembleOneOverM(dxx: Field3<real>, dyx: Field3<real>, dxy: Field3<real>, dyy: Field3<real>,
                          c: Constants, N: nat, ny: nat, nx: nat) returns (o: array5<real>)
    requires Shape3(dxx, N, ny, nx) && Shape3(dyx, N, ny, nx) && Shape3(dxy, N, ny, nx) && Shape3(dyy, N, ny, nx)
    requires Physical(c)
    ensures fresh(o)
    ensures o.Length0 == N && o.Length1 == ny && o.Length2 == nx && o.Length3 == 2 && o.Length4 == 2
    ensures forall n, j, i :: 0 <= n < N && 0 <= j < ny && 0 <= i < nx ==> o[n, j, i, 0, 0] == dxx[n][j][i] / c.hbar / c.hbar
    ensures forall n, j, i :: 0 <= n < N && 0 <= j < ny && 0 <= i < nx ==> o[n, j, i, 0, 1] == dyx[n][j][i] / c.hbar / c.hbar
    ensures forall n, j, i :: 0 <= n < N && 0 <= j < ny && 0 <= i < nx ==> o[n, j, i, 1, 0] == dxy[n][j][i] / c.hbar / c.hbar
    ensures forall n, j, i :: 0 <= n < N && 0 <= j < ny && 0 <= i < nx ==> o[n, j, i, 1, 1] == dyy[n][j][i] / c.hbar / c.hbar
  {
    var h := c.hbar;
    o := new real[N, ny, nx, 2, 2]((n, j, i, p, q) => 0.0);
    forall n, j, i | 0 <= n < N && 0 <= j < ny && 0 <= i < nx {
      o[n, j, i, 0, 0] := dxx[n][j][i] / h / h;
    }
    forall n, j, i | 0 <= n < N && 0 <= j < ny && 0 <= i < nx {
      o[n, j, i, 0, 1] := dyx[n][j][i] / h / h;
    }
    forall n, j, i | 0 <= n < N && 0 <= j < ny && 0 <= i < nx {
      o[n, j, i, 1, 0] := dxy[n][j][i] / h / h;
    }
    forall n, j, i | 0 <= n < N && 0 <= j < ny && 0 <= i < nx {
      o[n, j, i, 1, 1] := dyy[n][j][i] / h / h;
    }
  }

  /** meff_func: E is N x Nky x Nkx and its second derivatives are given.
      The gradient's refusal comes first, then the band count, then the
      singular inverse; otherwise every block of the result times
      m_e * oneoverm, on either side, is the identity. */
  method MeffFunc(kx: seq<real>, ky: seq<real>, E: Field3<real>, N: nat, ny: nat, nx: nat,
                  dxx: Field3<real>, dyx: Field3<real>, dxy: Field3<real>, dyy: Field3<real>, c: Constants)
    returns (r: Result<Field3<Mat2>>)
    requires Shape3(E, N, ny, nx) && Physical(c)
    requires Shape3(dxx, N, ny, nx) && Shape3(dyx, N, ny, nx) && Shape3(dxy, N, ny, nx) && Shape3(dyy, N, ny, nx)
    ensures !GradientAccepts(kx, ky, ny, nx) <==> r == Err(GradientShape)
    ensures GradientAccepts(kx, ky, ny, nx) && N != 4 <==> r == Err(BandCountNot4)
    ensures (GradientAccepts(kx, ky, ny, nx) && N == 4 && AnySingular(dxx, dyx, dxy, dyy, c, N, ny, nx))
              <==> r == Err(SingularMatrix)
    ensures r.Ok? ==>
              Shape3(r.value, N, ny, nx) &&
              forall n, j, i :: 0 <= n < N && 0 <= j < ny && 0 <= i < nx ==>
                var m := OneOverM(dxx, dyx, dxy, dyy, c, N, ny, nx, n, j, i);
                MatMul(r.value[n][j][i], ScaleM(c.me, m)) == Identity &&
                MatMul(ScaleM(c.me, m), r.value[n][j][i]) == Identity
  {
    if !(|ky| == ny && |kx| == nx && ny >= 3 && nx >= 3) {
      return Err(GradientShape);
    }
    if N != 4 {
      return Err(BandCountNot4);
    }
    var o := AssembleOneOverM(dxx, dyx, dxy, dyy, c, N, ny, nx);
    var m := Blocks(o);
    assert forall n, j, i :: 0 <= n < N && 0 <= j < ny && 0 <= i < nx ==>
             m[n][j][i] == OneOverM(dxx, dyx, dxy, dyy, c, N, ny, nx, n, j, i);
    if exists n, j, i :: 0 <= n < N && 0 <= j < ny && 0 <= i < nx && Det(m[n][j][i]) == 0.0 {
      return Err(SingularMatrix);
    }
    r := Ok(InvertBlocks(m, c.me, N, ny, nx));
  }

  // ----------------------------------------------------------------- feq_func

  /** The temperature feq_func works with: below 1e-10 K it is raised to
      1e-10 K so that kB * T is never zero. */
  function EffectiveTemperature(T: real): (t: real)
    ensures t >= 0.0000000001
    ensures T >= 0.0000000001 ==> t == T
    ensures T < 0.0000000001 ==> t == 0.0000000001
  {
    if T < 0.0000000001 then 0.0000000001 else T
  }

  /** exp is a parameter of the model, known only to be positive. */
  ghost predicate PositiveExp(expFn: real -> real) {
    forall x :: expFn(x) > 0.0
  }

  /** 1 / (1 + p) lies strictly between 0 and 1 for p > 0. */
  lemma ReciprocalBounds(p: real)
    requires p > 0.0
    ensures 0.0 < 1.0 / (1.0 + p) < 1.0
  {

  }

  /** 1 / (1 + exp((E - EF) / (kB * T))) */
  function FermiDirac(x: real, EF: real, t: real, c: Constants, expFn: real -> real): (f: real)
    requires Physical(c) && t > 0.0 && PositiveExp(expFn)
    ensures 0.0 < f < 1.0
  {
    NonZeroProduct(c.kB, t);
    var p := expFn((x - EF) / (c.kB * t));
    ReciprocalBounds(p);
    1.0 / (1.0 + p)
  }

  /** The occupation feq_func reports for energy x: the Fermi-Dirac value for
      x >= 0 and its complement, the hole occupation, for x < 0. */
  function Occupation(x: real, EF: real, t: real, c: Constants, expFn: real -> real): (f: real)
    requires Physical(c) && t > 0.0 && PositiveExp(expFn)
    ensures 0.0 < f < 1.0
    ensures x < 0.0 ==> f + FermiDirac(x, EF, t, c, expFn) == 1.0
    ensures x >= 0.0 ==> f == FermiDirac(x, EF, t, c, expFn)
  {
    if x < 0.0 then 1.0 - FermiDirac(x, EF, t, c, expFn) else FermiDirac(x, EF, t, c, expFn)
  }

  /** With exp(0) = 1 an electron state at the Fermi energy is half full. */
  lemma HalfFilledAtFermiLevel(x: real, EF: real, t: real, c: Constants, expFn: real -> real)
    requires Physical(c) && t > 0.0 && PositiveExp(expFn) && expFn(0.0) == 1.0
    requires x == EF && x >= 0.0
    ensures Occupation(x, EF, t, c, expFn) == 0.5
  {
    NonZeroProduct(c.kB, t);
    assert (x - EF) / (c.kB * t) == 0.0;
  }

  /** feq_func on the energies E (flattened: the formula is elementwise). The
      result has the shape of E, every value is strictly between 0 and 1,
      and an entry is the hole occupation exactly where E < 0. */
  method FeqFunc(E: seq<real>, EF: real, T: real, c: Constants, expFn: real -> real) returns (f: seq<real>)
    requires Physical(c) && PositiveExp(expFn)
    ensures |f| == |E|
    ensures forall i :: 0 <= i < |E| ==> 0.0 < f[i] < 1.0
    ensures forall i :: 0 <= i < |E| ==>
              f[i] == Occupation(E[i], EF, EffectiveTemperature(T), c, expFn)
  {
    var t := T;
    if t < 0.0000000001 {
      t := 0.0000000001;
    }
    var a := new real[|E|];
    forall i | 0 <= i < |E| {
      a[i] := FermiDirac(E[i], EF, t, c, expFn);
    }
    forall i | 0 <= i < |E| && E[i] < 0.0 {
      a[i] := 1.0 - a[i];
    }
    f := a[..];
  }

  // ------------------------------------------------------- check_f_boundaries

  /** Python's index into an axis of length len: -1 is the last entry. */
  function Pick(e: int, len: nat): int {
    if e < 0 then len + e else e
  }

  /** (f[n, j, :] > thresh).any() */
  predicate RowAbove(f: Field3<real>, n: nat, j: nat, C: nat, thresh: real)
    requires n < |f| && j < |f[n]| && |f[n][j]| == C
  {
    exists i :: 0 <= i < C && f[n][j][i] > thresh
  }

  /** (f[n, :, i] > thresh).any() */
  predicate ColAbove(f: Field3<real>, n: nat, i: nat, R: nat, thresh: real)
    requires n < |f| && |f[n]| == R && forall j :: 0 <= j < R ==> i < |f[n][j]|
  {
    exists j :: 0 <= j < R && f[n][j][i] > thresh
  }

  /** Row e or, failing that, column e of band n has a value above thresh,
      for an edge index e in [0, -1]. */
  predicate EdgeAbove(f: Field3<real>, n: nat, R: nat, C: nat, e: int, thresh: real)
    requires n < |f| && |f[n]| == R && R > 0 && C > 0 && (e == 0 || e == -1)
    requires forall j :: 0 <= j < R ==> |f[n][j]| == C
  {
    RowAbove(f, n, Pick(e, R), C, thresh) || ColAbove(f, n, Pick(e, C), R, thresh)
  }

  /** A boundary point of the R x C grid: first or last row or column. */
  predicate OnBoundary(R: nat, C: nat, j: nat, i: nat) {
    j < R && i < C && (j == 0 || j == R - 1 || i == 0 || i == C - 1)
  }

  /** Band n has a value strictly above thresh somewhere on the boundary. */
  ghost predicate BoundaryAbove(f: Field3<real>, B: nat, R: nat, C: nat, n: nat, thresh: real)
    requires Shape3(f, B, R, C) && n < B
  {
    exists j: nat, i: nat :: OnBoundary(R, C, j, i) && f[n][j][i] > thresh
  }

  predicate StrictlyIncreasing(s: seq<nat>) {
    forall p, q :: 0 <= p < q < |s| ==> s[p] < s[q]
  }

  /** The two edges i in [0, -1] together cover the boundary. */
  lemma EdgesCoverBoundary(f: Field3<real>, B: nat, R: nat, C: nat, n: nat, thresh: real)
    requires Shape3(f, B, R, C) && n < B && R > 0 && C > 0
    ensures BoundaryAbove(f, B, R, C, n, thresh) <==>
            EdgeAbove(f, n, R, C, 0, thresh) || EdgeAbove(f, n, R, C, -1, thresh)
  {
    if BoundaryAbove(f, B, R, C, n, thresh) {
      var j: nat, i: nat :| OnBoundary(R, C, j, i) && f[n][j][i] > thresh;
      if j == 0 {
        assert f[n][0][i] > thresh;
        assert RowAbove(f, n, 0, C, thresh);
      } else if j == R - 1 {
        assert f[n][R - 1][i] > thresh;
        assert RowAbove(f, n, R - 1, C, thresh);
      } else if i == 0 {
        assert f[n][j][0] > thresh;
        assert ColAbove(f, n, 0, R, thresh);
      } else {
        assert f[n][j][C - 1] > thresh;
        assert ColAbove(f, n, C - 1, R, thresh);
      }
    }
    if RowAbove(f, n, 0, C, thresh) {
      var i :| 0 <= i < C && f[n][0][i] > thresh;
      assert OnBoundary(R, C, 0, i);
    }
    if ColAbove(f, n, 0, R, thresh) {
      var j :| 0 <= j < R && f[n][j][0] > thresh;
      assert OnBoundary(R, C, j, 0);
    }
    if RowAbove(f, n, R - 1, C, thresh) {
      var i :| 0 <= i < C && f[n][R - 1][i] > thresh;
      assert OnBoundary(R, C, R - 1, i);
    }
    if ColAbove(f, n, C - 1, R, thresh) {
      var j :| 0 <= j < R && f[n][j][C - 1] > thresh;
      assert OnBoundary(R, C, j, C - 1);
    }
  }

  /** Values off the boundary never change the verdict for a band. */
  lemma InteriorIrrelevant(f: Field3<real>, g: Field3<real>, B: nat, R: nat, C: nat, n: nat, thresh: real)
    requires Shape3(f, B, R, C) && Shape3(g, B, R, C) && n < B
    requires forall j: nat, i: nat :: OnBoundary(R, C, j, i) ==> f[n][j][i] == g[n][j][i]
    ensures BoundaryAbove(f, B, R, C, n, thresh) <==> BoundaryAbove(g, B, R, C, n, thresh)
  {
  }

  datatype ScanError = IndexError

  datatype Scan = Warned(bands: seq<nat>) | Failed(error: ScanError)

  /** check_f_boundaries on f of shape B x R x C (the rank is 3 by type). The
      print is modelled as the list of bands it reports. With a band present
      and an empty axis, the first edge index raises IndexError before any
      report. Otherwise band n is reported iff some boundary value exceeds
      thresh, once, in increasing band order. */
  method CheckFBoundaries(f: Field3<real>, B: nat, R: nat, C: nat, thresh: real) returns (r: Scan)
    requires Shape3(f, B, R, C)
    ensures r.Failed? <==> B > 0 && (R == 0 || C == 0)
    ensures r.Warned? ==> StrictlyIncreasing(r.bands)
    ensures r.Warned? ==> forall n: nat :: n in r.bands <==> n < B && BoundaryAbove(f, B, R, C, n, thresh)
  {
    if B > 0 && (R == 0 || C == 0) {
      return Failed(IndexError);
    }
    var warned: seq<nat> := [];
    var n := 0;
    while n < B
      invariant 0 <= n <= B
      invariant StrictlyIncreasing(warned)
      invariant forall p :: 0 <= p < |warned| ==> warned[p] < n
      invariant forall b: nat :: b in warned <==> b < n && BoundaryAbove(f, B, R, C, b, thresh)
    {
      var below := true;
      var t := 0;
      while t < 2
        invariant 0 <= t <= 2
        invariant below <==> !((t >= 1 && EdgeAbove(f, n, R, C, 0, thresh)) ||
                               (t >= 2 && EdgeAbove(f, n, R, C, -1, thresh)))
      {
        var e := if t == 0 then 0 else -1;
        if RowAbove(f, n, Pick(e, R), C, thresh) {
          below := false;
        } else if ColAbove(f, n, Pick(e, C), R, thresh) {
          below := false;
        }
        t := t + 1;
      }
      EdgesCoverBoundary(f, B, R, C, n, thresh);
      if !below {
        warned := warned + [n];
      }
      n := n + 1;
    }
    r := Warned(warned);
  }
}
