/** Band post-processing of blg_strain/bands.py: the k grid, the Hermitian
    check, the two diagonalisation routes with their sorting and sign fixing,
    and the layout of the returned eigenvalue and eigenvector arrays.

    The eigensolvers (numpy's eigh and eig) and the Hamiltonian provider
    (Hfunc) are parameters. Array shapes: H from Hfunc is N x N x Nkx x Nky,
    E is N x Nkx x Nky, Psi is N x N x Nkx x Nky. */
module Bands {
  import opened ComplexArith
  import opened Arrays

  datatype BandsError = NotHermitian | SignFixFailed

  datatype Result<T> = Ok(value: T) | Err(error: BandsError)

  // ------------------------------------------------------------- the k grid

  /** The spacing of numpy.linspace(lo, hi, num) for num >= 2. */
  function Step(lo: real, hi: real, num: nat): real
    requires num >= 2
  {
    (hi - lo) / ((num - 1) as real)
  }

  /** numpy.linspace(lo, hi, num): sample i is lo + i * step, and the last
      sample is set to hi explicitly. */
  function Linspace(lo: real, hi: real, num: nat): (r: seq<real>)
    ensures |r| == num
    ensures num >= 1 ==> r[0] == lo
    ensures num >= 2 ==> r[num - 1] == hi
  {
    if num == 0 then []
    else if num == 1 then [lo]
    else seq(num, i requires 0 <= i < num =>
               if i == num - 1 then hi else lo + (i as real) * Step(lo, hi, num))
  }

  /** Setting the endpoint explicitly agrees with the formula, so the samples
      are evenly spaced, and they increase strictly when lo < hi. */
  lemma LinspaceEvenlySpaced(lo: real, hi: real, num: nat)
    ensures num >= 2 ==> forall i :: 0 <= i < num ==>
              Linspace(lo, hi, num)[i] == lo + (i as real) * Step(lo, hi, num)
    ensures num >= 2 ==> forall i :: 0 <= i < num - 1 ==>
              Linspace(lo, hi, num)[i + 1] - Linspace(lo, hi, num)[i] == Step(lo, hi, num)
    ensures lo < hi ==> forall a, b :: 0 <= a < b < num ==> Linspace(lo, hi, num)[a] < Linspace(lo, hi, num)[b]
  {
    if num < 2 { return; }
    LinspaceFormula(lo, hi, num);
    var r := Linspace(lo, hi, num);
    var s := Step(lo, hi, num);
    forall i | 0 <= i < num - 1
      ensures r[i + 1] - r[i] == s
    {
      Distribute(i as real, 1.0, s);
    }
    if lo < hi {
      StepTimesCount(lo, hi, num);
      SamplesIncrease(r, lo, s);
    }
  }

  /** Samples lo + i * s with s > 0 increase strictly. */
  lemma SamplesIncrease(r: seq<real>, lo: real, s: real)
    requires s > 0.0
    requires forall i :: 0 <= i < |r| ==> r[i] == lo + (i as real) * s
    ensures forall a, b :: 0 <= a < b < |r| ==> r[a] < r[b]
  {
    forall a, b | 0 <= a < b < |r|
      ensures r[a] < r[b]
    {
      var d := (b - a) as real;
      assert (b as real) * s == d * s + (a as real) * s;
      assert d * s > 0.0;
    }
  }

  lemma LinspaceFormula(lo: real, hi: real, num: nat)
    requires num >= 2
    ensures forall i :: 0 <= i < num ==> Linspace(lo, hi, num)[i] == lo + (i as real) * Step(lo, hi, num)
  {
    StepTimesCount(lo, hi, num);
  }

  lemma StepTimesCount(lo: real, hi: real, num: nat)
    requires num >= 2
    ensures ((num - 1) as real) * Step(lo, hi, num) == hi - lo
    ensures lo < hi ==> Step(lo, hi, num) > 0.0
  {
  }

  lemma Distribute(x: real, y: real, s: real)
    ensures (x + y) * s == x * s + y * s
  {
  }

  /** numpy.meshgrid(x, y, indexing='ij'). */
  function MeshgridIJ(x: seq<real>, y: seq<real>): (r: (Field2<real>, Field2<real>))
    ensures Shape2(r.0, |x|, |y|) && Shape2(r.1, |x|, |y|)
    ensures forall i, j :: 0 <= i < |x| && 0 <= j < |y| ==> r.0[i][j] == x[i] && r.1[i][j] == y[j]
  {
    (seq(|x|, i requires 0 <= i < |x| => seq(|y|, j => x[i])),
     seq(|x|, i => seq(|y|, j requires 0 <= j < |y| => y[j])))
  }

  // ------------------------------------------------- the Hamiltonian field

  function NumX<T>(h: Field4<T>): nat {
    if |h| > 0 && |h[0]| > 0 then |h[0][0]| else 0
  }

  function NumY<T>(h: Field4<T>): nat {
    if |h| > 0 && |h[0]| > 0 && |h[0][0]| > 0 then |h[0][0][0]| else 0
  }

  /** What Hfunc returns: an N x N matrix (N >= 1) at each of Nkx x Nky points,
      the matrix indices first. */
  predicate IsHamiltonianField(h: Field4<Complex>) {
    |h| >= 1 && Shape4(h, |h|, |h|, NumX(h), NumY(h))
  }

  /** The matrix at grid point (i, j): H[:, :, i, j]. */
  function MatrixAt(h: Field4<Complex>, i: nat, j: nat): (m: CMatrix)
    requires IsHamiltonianField(h) && i < NumX(h) && j < NumY(h)
    ensures IsSquare(m, |h|)
    ensures forall a, b :: 0 <= a < |h| && 0 <= b < |h| ==> m[a][b] == h[a][b][i][j]
  {
    seq(|h|, a requires 0 <= a < |h| => seq(|h|, b requires 0 <= b < |h| => h[a][b][i][j]))
  }

  /** H.transpose(2, 3, 0, 1): the matrices moved to the last two axes. */
  function PointMatrices(h: Field4<Complex>): (p: Field2<CMatrix>)
    requires IsHamiltonianField(h)
    ensures Shape2(p, NumX(h), NumY(h))
    ensures forall i, j :: 0 <= i < NumX(h) && 0 <= j < NumY(h) ==> p[i][j] == MatrixAt(h, i, j)
  {
    seq(NumX(h), i requires 0 <= i < NumX(h) =>
      seq(NumY(h), j requires 0 <= j < NumY(h) => MatrixAt(h, i, j)))
  }

  /** The check of bands.py: every matrix equals its conjugate transpose, with
      exact equality (no tolerance). */
  predicate AllHermitian(p: Field2<CMatrix>) {
    forall i, j :: 0 <= i < |p| && 0 <= j < |p[i]| ==> IsHermitian(p[i][j])
  }

  /** The same condition stated directly on Hfunc's layout. */
  predicate HermitianField(h: Field4<Complex>)
    requires IsHamiltonianField(h)
  {
    forall a, b, i, j :: 0 <= a < |h| && 0 <= b < |h| && 0 <= i < NumX(h) && 0 <= j < NumY(h) ==>
      h[a][b][i][j] == Conj(h[b][a][i][j])
  }

  // --------------------------------------------------------- eigensolvers

  /** The output of numpy.linalg.eigh (T = real) or numpy.linalg.eig
      (T = Complex) for one matrix: eigenvector k is column k of `vectors`. */
  datatype Eigen<T> = Eigen(values: seq<T>, vectors: CMatrix)

  /** The solver returns N values and an N x N matrix for an N x N input. */
  ghost predicate SolverShaped<T>(solve: CMatrix -> Eigen<T>) {
    forall m: CMatrix :: IsSquare(m, |m|) ==>
      |solve(m).values| == |m| && IsSquare(solve(m).vectors, |m|)
  }

  /** The solver applied to the matrix of every grid point. */
  function SolveEach<T>(h: Field4<Complex>, solve: CMatrix -> Eigen<T>): (s: Field2<Eigen<T>>)
    requires IsHamiltonianField(h) && SolverShaped(solve)
    ensures Shape2(s, NumX(h), NumY(h))
    ensures forall i, j :: 0 <= i < NumX(h) && 0 <= j < NumY(h) ==>
              s[i][j] == solve(MatrixAt(h, i, j)) &&
              |s[i][j].values| == |h| && IsSquare(s[i][j].vectors, |h|)
  {
    var p := PointMatrices(h);
    seq(NumX(h), i requires 0 <= i < NumX(h) =>
      seq(NumY(h), j requires 0 <= j < NumY(h) => solve(p[i][j])))
  }

  /** Solver output as laid out by LAPACK: every point's values and vectors. */
  predicate SolutionShaped<T>(s: Field2<Eigen<T>>, n: nat, nx: nat, ny: nat) {
    Shape2(s, nx, ny) &&
    forall i, j :: 0 <= i < nx && 0 <= j < ny ==> |s[i][j].values| == n && IsSquare(s[i][j].vectors, n)
  }

  /** E.transpose(2, 0, 1): E[k][i][j] is eigenvalue k at point (i, j). */
  function ValuesBandMajor<T>(s: Field2<Eigen<T>>, n: nat, nx: nat, ny: nat): (e: Field3<T>)
    requires SolutionShaped(s, n, nx, ny)
    ensures Shape3(e, n, nx, ny)
    ensures forall k, i, j :: 0 <= k < n && 0 <= i < nx && 0 <= j < ny ==> e[k][i][j] == s[i][j].values[k]
  {
    seq(n, k requires 0 <= k < n =>
      seq(nx, i requires 0 <= i < nx =>
        seq(ny, j requires 0 <= j < ny => s[i][j].values[k])))
  }

  /** Psi.transpose(2, 3, 0, 1): V[c][k][i][j] is component c of eigenvector
      k (column k of the solver's matrix) at point (i, j). */
  function VectorsComponentMajor<T>(s: Field2<Eigen<T>>, n: nat, nx: nat, ny: nat): (v: Field4<Complex>)
    requires SolutionShaped(s, n, nx, ny)
    ensures Shape4(v, n, n, nx, ny)
    ensures forall c, k, i, j :: 0 <= c < n && 0 <= k < n && 0 <= i < nx && 0 <= j < ny ==>
              v[c][k][i][j] == s[i][j].vectors[c][k]
  {
    seq(n, c requires 0 <= c < n =>
      seq(n, k requires 0 <= k < n =>
        seq(nx, i requires 0 <= i < nx =>
          seq(ny, j requires 0 <= j < ny => s[i][j].vectors[c][k]))))
  }

  /** Psi.transpose((1, 0, 2, 3)): the eigenvector index moved first. */
  function SwapLeadingAxes(v: Field4<Complex>, n: nat, nx: nat, ny: nat): (w: Field4<Complex>)
    requires Shape4(v, n, n, nx, ny)
    ensures Shape4(w, n, n, nx, ny)
    ensures forall k, c, i, j :: 0 <= k < n && 0 <= c < n && 0 <= i < nx && 0 <= j < ny ==>
              w[k][c][i][j] == v[c][k][i][j]
  {
    seq(n, k requires 0 <= k < n =>
      seq(n, c requires 0 <= c < n =>
        seq(nx, i requires 0 <= i < nx =>
          seq(ny, j requires 0 <= j < ny => v[c][k][i][j]))))
  }

  /** E.real */
  function RealParts(e: Field3<Complex>, n: nat, nx: nat, ny: nat): (r: Field3<real>)
    requires Shape3(e, n, nx, ny)
    ensures Shape3(r, n, nx, ny)
    ensures forall k, i, j :: 0 <= k < n && 0 <= i < nx && 0 <= j < ny ==> r[k][i][j] == e[k][i][j].re
  {
    seq(n, k requires 0 <= k < n =>
      seq(nx, i requires 0 <= i < nx =>
        seq(ny, j requires 0 <= j < ny => e[k][i][j].re)))
  }

  // ------------------------------------------------------------ argsort

  function Range(n: nat): (r: seq<nat>)
    ensures |r| == n && forall k :: 0 <= k < n ==> r[k] == k
  {
    if n == 0 then [] else Range(n - 1) + [n - 1]
  }

  predicate InRange(p: seq<nat>, n: nat) {
    forall t :: 0 <= t < |p| ==> p[t] < n
  }

  /** p lists every index below n exactly once. */
  predicate IsPermutation(p: seq<nat>, n: nat) {
    multiset(p) == multiset(Range(n))
  }

  /** keys taken in the order p is non-decreasing */
  predicate SortedBy(keys: seq<real>, p: seq<nat>)
    requires InRange(p, |keys|)
  {
    forall a, b :: 0 <= a < b < |p| ==> keys[p[a]] <= keys[p[b]]
  }

  /** s[p], numpy's fancy indexing along one axis. */
  function Gather<T>(s: seq<T>, p: seq<nat>): (r: seq<T>)
    requires InRange(p, |s|)
    ensures |r| == |p| && forall t :: 0 <= t < |p| ==> r[t] == s[p[t]]
  {
    seq(|p|, t requires 0 <= t < |p| => s[p[t]])
  }

  /** Inserts index k into p before the first index whose key is larger. */
  function Insert(keys: seq<real>, p: seq<nat>, k: nat): (r: seq<nat>)
    requires k < |keys| && InRange(p, |keys|)
    ensures |r| == |p| + 1 && InRange(r, |keys|)
    ensures multiset(r) == multiset(p) + multiset{k}
    decreases |p|
  {
    if p == [] then [k]
    else if keys[k] <= keys[p[0]] then [k] + p
    else
      assert p == [p[0]] + p[1..];
      [p[0]] + Insert(keys, p[1..], k)
  }

  lemma {:induction false} InsertKeepsSorted(keys: seq<real>, p: seq<nat>, k: nat)
    requires k < |keys| && InRange(p, |keys|) && SortedBy(keys, p)
    ensures SortedBy(keys, Insert(keys, p, k))
    decreases |p|
  {
    var r := Insert(keys, p, k);
    if p != [] && keys[k] > keys[p[0]] {
      var q := Insert(keys, p[1..], k);
      InsertKeepsSorted(keys, p[1..], k);
      assert r == [p[0]] + q;
      forall t | 0 <= t < |q|
        ensures keys[p[0]] <= keys[q[t]]
      {
        assert q[t] in multiset(q);
        if q[t] != k {
          assert q[t] in multiset(p[1..]);
          var s :| 0 <= s < |p[1..]| && p[1..][s] == q[t];
          assert p[1 + s] == q[t];
        }
      }
    }
  }

  /** Every permutation of the gathered sequence follows that of the indices:
      inserting k adds s[k] to what p gathers, for any s. */
  lemma {:induction false} InsertGathers<T>(keys: seq<real>, p: seq<nat>, k: nat, s: seq<T>)
    requires k < |keys| && InRange(p, |keys|) && |s| == |keys|
    ensures multiset(Gather(s, Insert(keys, p, k))) == multiset(Gather(s, p)) + multiset{s[k]}
    decreases |p|
  {
    if p == [] {
      assert Gather(s, [k]) == [s[k]];
    } else if keys[k] <= keys[p[0]] {
      GatherCons(s, k, p);
    } else {
      var q := Insert(keys, p[1..], k);
      InsertGathers(keys, p[1..], k, s);
      assert p == [p[0]] + p[1..];
      GatherCons(s, p[0], q);
      GatherCons(s, p[0], p[1..]);
    }
  }

  lemma GatherCons<T>(s: seq<T>, x: nat, p: seq<nat>)
    requires x < |s| && InRange(p, |s|)
    ensures Gather(s, [x] + p) == [s[x]] + Gather(s, p)
  {
  }

  /** Argsort of the first n keys by insertion. */
  function ArgsortPrefix(keys: seq<real>, n: nat): (p: seq<nat>)
    requires n <= |keys|
    ensures |p| == n && InRange(p, n)
  {
    if n == 0 then []
    else
      var q := ArgsortPrefix(keys, n - 1);
      InsertInRange(keys, q, n - 1, n);
      Insert(keys, q, n - 1)
  }

  lemma {:induction false} InsertInRange(keys: seq<real>, p: seq<nat>, k: nat, n: nat)
    requires k < |keys| && InRange(p, |keys|) && InRange(p, n) && k < n
    ensures InRange(Insert(keys, p, k), n)
    decreases |p|
  {
    if p != [] && keys[k] > keys[p[0]] {
      InsertInRange(keys, p[1..], k, n);
    }
  }

  lemma {:induction false} ArgsortPrefixSorted(keys: seq<real>, n: nat)
    requires n <= |keys|
    ensures SortedBy(keys, ArgsortPrefix(keys, n))
  {
    if n > 0 {
      ArgsortPrefixSorted(keys, n - 1);
      InsertKeepsSorted(keys, ArgsortPrefix(keys, n - 1), n - 1);
    }
  }

  lemma {:induction false} ArgsortPrefixGathers<T>(keys: seq<real>, n: nat, s: seq<T>)
    requires n <= |keys| && |s| == |keys|
    ensures multiset(Gather(s, ArgsortPrefix(keys, n))) == multiset(s[..n])
  {
    if n > 0 {
      var q := ArgsortPrefix(keys, n - 1);
      ArgsortPrefixGathers(keys, n - 1, s);
      InsertGathers(keys, q, n - 1, s);
      PrefixSnoc(s, n);
    }
  }

  /** The indices, gathered from Range, are a permutation of it. */
  lemma ArgsortPrefixPermutation(keys: seq<real>, n: nat)
    requires n <= |keys|
    ensures IsPermutation(ArgsortPrefix(keys, n), n)
  {
    var p := ArgsortPrefix(keys, n);
    var rg := Range(|keys|);
    ArgsortPrefixGathers(keys, n, rg);
    assert Gather(rg, p) == p;
    assert rg[..n] == Range(n);
  }

  lemma PrefixSnoc<T>(s: seq<T>, n: nat)
    requires 0 < n <= |s|
    ensures multiset(s[..n]) == multiset(s[..n - 1]) + multiset{s[n - 1]}
  {
    assert s[..n] == s[..n - 1] + [s[n - 1]];
  }

  /** numpy's argsort: some permutation that sorts the keys. Ties are not
      ordered in any particular way. */
  function Argsort(keys: seq<real>): (p: seq<nat>)
    ensures |p| == |keys| && InRange(p, |keys|)
    ensures IsPermutation(p, |keys|)
    ensures SortedBy(keys, p)
  {
    ArgsortPrefixSorted(keys, |keys|);
    ArgsortPrefixPermutation(keys, |keys|);
    ArgsortPrefix(keys, |keys|)
  }

  /** Gathering any sequence of the same length by an argsort permutes it. */
  lemma ArgsortPermutes<T>(keys: seq<real>, s: seq<T>)
    requires |s| == |keys|
    ensures multiset(Gather(s, Argsort(keys))) == multiset(s)
  {
    ArgsortPrefixGathers(keys, |keys|, s);
    assert s[..|s|] == s;
  }

  // --------------------------------------------------------- sort_eigen

  function RealKeys(z: seq<Complex>): (r: seq<real>)
    ensures |r| == |z| && forall k :: 0 <= k < |z| ==> r[k] == z[k].re
  {
    seq(|z|, k requires 0 <= k < |z| => z[k].re)
  }

  /** indE[0] = eigs.argsort(axis=0), taken on the real parts. */
  function SortIndices(eigs: Field3<Complex>, n: nat, nx: nat, ny: nat): (ind: Field3<nat>)
    requires Shape3(eigs, n, nx, ny)
    ensures Shape3(ind, n, nx, ny)
    ensures forall k, i, j :: 0 <= k < n && 0 <= i < nx && 0 <= j < ny ==>
              ind[k][i][j] == Argsort(RealKeys(Column(eigs, i, j)))[k] && ind[k][i][j] < n
  {
    seq(n, k requires 0 <= k < n =>
      seq(nx, i requires 0 <= i < nx =>
        seq(ny, j requires 0 <= j < ny => Argsort(RealKeys(Column(eigs, i, j)))[k])))
  }

  /** sort_eigen: eigs[indE] and vecs[indV], where indV[1] = indE[0] so that
      every component of the eigenvectors is gathered with the same index. */
  function SortEigen(eigs: Field3<Complex>, vecs: Field4<Complex>, n: nat, nx: nat, ny: nat)
    : (r: (Field3<Complex>, Field4<Complex>))
    requires Shape3(eigs, n, nx, ny) && Shape4(vecs, n, n, nx, ny)
    ensures Shape3(r.0, n, nx, ny) && Shape4(r.1, n, n, nx, ny)
  {
    var ind := SortIndices(eigs, n, nx, ny);
    (GatherValues(eigs, ind, n, nx, ny), GatherVectors(vecs, ind, n, nx, ny))
  }

  /** eigs[indE]: E[k][i][j] := eigs[ind[k][i][j]][i][j] */
  function GatherValues(eigs: Field3<Complex>, ind: Field3<nat>, n: nat, nx: nat, ny: nat): (r: Field3<Complex>)
    requires Shape3(eigs, n, nx, ny) && Shape3(ind, n, nx, ny)
    requires forall k, i, j :: 0 <= k < n && 0 <= i < nx && 0 <= j < ny ==> ind[k][i][j] < n
    ensures Shape3(r, n, nx, ny)
    ensures forall k, i, j :: 0 <= k < n && 0 <= i < nx && 0 <= j < ny ==> r[k][i][j] == eigs[ind[k][i][j]][i][j]
  {
    seq(n, k requires 0 <= k < n =>
      seq(nx, i requires 0 <= i < nx =>
        seq(ny, j requires 0 <= j < ny => eigs[ind[k][i][j]][i][j])))
  }

  /** vecs[indV]: Psi[c][k][i][j] := vecs[c][ind[k][i][j]][i][j] */
  function GatherVectors(vecs: Field4<Complex>, ind: Field3<nat>, n: nat, nx: nat, ny: nat): (r: Field4<Complex>)
    requires Shape4(vecs, n, n, nx, ny) && Shape3(ind, n, nx, ny)
    requires forall k, i, j :: 0 <= k < n && 0 <= i < nx && 0 <= j < ny ==> ind[k][i][j] < n
    ensures Shape4(r, n, n, nx, ny)
    ensures forall c, k, i, j :: 0 <= c < n && 0 <= k < n && 0 <= i < nx && 0 <= j < ny ==>
              r[c][k][i][j] == vecs[c][ind[k][i][j]][i][j]
  {
    seq(n, c requires 0 <= c < n =>
      seq(n, k requires 0 <= k < n =>
        seq(nx, i requires 0 <= i < nx =>
          seq(ny, j requires 0 <= j < ny => vecs[c][ind[k][i][j]][i][j]))))
  }

  /** At grid point (i, j) the sorted pair r relabels eigs and vecs by one
      permutation p of the band indices, so that each vector stays with its
      eigenvalue; the real parts come out non-decreasing and the eigenvalues
      are a permutation of the input ones. */
  predicate SortedAtPoint(r: (Field3<Complex>, Field4<Complex>), eigs: Field3<Complex>, vecs: Field4<Complex>,
                          p: seq<nat>, n: nat, nx: nat, ny: nat, i: nat, j: nat)
    requires Shape3(eigs, n, nx, ny) && Shape4(vecs, n, n, nx, ny)
    requires Shape3(r.0, n, nx, ny) && Shape4(r.1, n, n, nx, ny) && i < nx && j < ny
  {
    && IsPermutation(p, n) && |p| == n && InRange(p, n)
    && (forall k :: 0 <= k < n ==> r.0[k][i][j] == eigs[p[k]][i][j])
    && (forall c, k :: 0 <= c < n && 0 <= k < n ==> r.1[c][k][i][j] == vecs[c][p[k]][i][j])
    && (forall a, b :: 0 <= a < b < n ==> r.0[a][i][j].re <= r.0[b][i][j].re)
    && multiset(Column(r.0, i, j)) == multiset(Column(eigs, i, j))
  }

  /** sort_eigen sorts every point by the argsort of its real parts. */
  lemma SortEigenAtPoint(eigs: Field3<Complex>, vecs: Field4<Complex>, n: nat, nx: nat, ny: nat, i: nat, j: nat)
    requires Shape3(eigs, n, nx, ny) && Shape4(vecs, n, n, nx, ny) && i < nx && j < ny
    ensures SortedAtPoint(SortEigen(eigs, vecs, n, nx, ny), eigs, vecs,
                          Argsort(RealKeys(Column(eigs, i, j))), n, nx, ny, i, j)
  {
    var r := SortEigen(eigs, vecs, n, nx, ny);
    var col := Column(eigs, i, j);
    var keys := RealKeys(col);
    var p := Argsort(keys);
    ArgsortPermutes(keys, col);
    assert Column(r.0, i, j) == Gather(col, p);
  }

  // ------------------------------------------- fix_first_component_sign

  /** 2 * (z.real > 0) - 1 */
  function Multiplier(z: Complex): (r: real)
    ensures r == 1.0 || r == -1.0
    ensures r == 1.0 <==> z.re > 0.0
  {
    2.0 * (if z.re > 0.0 then 1.0 else 0.0) - 1.0
  }

  /** Psi *= multiplier on the layout V[c][k][i][j]: eigenvector k at (i, j)
      is multiplied as a whole by the multiplier of its first component. */
  function SignFixed(v: Field4<Complex>, n: nat, nx: nat, ny: nat): (w: Field4<Complex>)
    requires n >= 1 && Shape4(v, n, n, nx, ny)
    ensures Shape4(w, n, n, nx, ny)
    ensures forall c, k, i, j :: 0 <= c < n && 0 <= k < n && 0 <= i < nx && 0 <= j < ny ==>
              w[c][k][i][j] == Scale(Multiplier(v[0][k][i][j]), v[c][k][i][j])
  {
    seq(n, c requires 0 <= c < n =>
      seq(n, k requires 0 <= k < n =>
        seq(nx, i requires 0 <= i < nx =>
          seq(ny, j requires 0 <= j < ny => Scale(Multiplier(v[0][k][i][j]), v[c][k][i][j])))))
  }

  /** The negation of the post-check (Psi[0].real < 0).any(). */
  predicate FirstComponentsNonNegative(w: Field4<Complex>, n: nat, nx: nat, ny: nat)
    requires n >= 1 && Shape4(w, n, n, nx, ny)
  {
    forall k, i, j :: 0 <= k < n && 0 <= i < nx && 0 <= j < ny ==> w[0][k][i][j].re >= 0.0
  }

  /** fix_first_component_sign as a value: the sign-fixed array, or the
      exception of the post-check, which exact arithmetic never reaches. */
  function FixedSigns(v: Field4<Complex>, n: nat, nx: nat, ny: nat): (r: Result<Field4<Complex>>)
    requires n >= 1 && Shape4(v, n, n, nx, ny)
    ensures r == Ok(SignFixed(v, n, nx, ny))
  {
    var w := SignFixed(v, n, nx, ny);
    if !FirstComponentsNonNegative(w, n, nx, ny) then Err(SignFixFailed) else Ok(w)
  }

  /** Sign fixing keeps vectors whose first component has positive real part,
      negates the others as whole vectors, and leaves every first component
      with a non-negative real part. */
  lemma SignFixedProperties(v: Field4<Complex>, n: nat, nx: nat, ny: nat)
    requires n >= 1 && Shape4(v, n, n, nx, ny)
    ensures var w := SignFixed(v, n, nx, ny);
            && FirstComponentsNonNegative(w, n, nx, ny)
            && (forall c, k, i, j :: 0 <= c < n && 0 <= k < n && 0 <= i < nx && 0 <= j < ny ==>
                  w[c][k][i][j] == (if v[0][k][i][j].re > 0.0 then v[c][k][i][j] else Neg(v[c][k][i][j])))
  {
  }

  /** SignFixed is the only field with its entries. */
  lemma SignFixedIsUnique(v: Field4<Complex>, w: Field4<Complex>, n: nat, nx: nat, ny: nat)
    requires n >= 1 && Shape4(v, n, n, nx, ny) && Shape4(w, n, n, nx, ny)
    requires forall c, k, i, j :: 0 <= c < n && 0 <= k < n && 0 <= i < nx && 0 <= j < ny ==>
               w[c][k][i][j] == Scale(Multiplier(v[0][k][i][j]), v[c][k][i][j])
    ensures w == SignFixed(v, n, nx, ny)
  {
    Ext4(w, SignFixed(v, n, nx, ny), n, n, nx, ny);
  }

  /** The array4 contents as a nested sequence. */
  ghost function Contents(a: array4<Complex>): (s: Field4<Complex>)
    reads a
    ensures Shape4(s, a.Length0, a.Length1, a.Length2, a.Length3)
    ensures forall c, k, i, j :: 0 <= c < a.Length0 && 0 <= k < a.Length1 && 0 <= i < a.Length2 && 0 <= j < a.Length3 ==>
              s[c][k][i][j] == a[c, k, i, j]
  {
    seq(a.Length0, c requires 0 <= c < a.Length0 reads a =>
      seq(a.Length1, k requires 0 <= k < a.Length1 reads a =>
        seq(a.Length2, i requires 0 <= i < a.Length2 reads a =>
          seq(a.Length3, j requires 0 <= j < a.Length3 reads a => a[c, k, i, j]))))
  }

  /** fix_first_component_sign, in place: one parallel update multiplies every
      entry by the multiplier of its vector's (old) first component, then the
      first components are scanned for a negative real part. */
  method FixFirstComponentSign(psi: array4<Complex>) returns (failed: bool)
    requires psi.Length0 >= 1 && psi.Length0 == psi.Length1
    modifies psi
    ensures Contents(psi) == SignFixed(old(Contents(psi)), psi.Length0, psi.Length2, psi.Length3)
    ensures FixedSigns(old(Contents(psi)), psi.Length0, psi.Length2, psi.Length3) == Ok(Contents(psi))
    ensures !failed
  {
    ghost var before := Contents(psi);
    forall c, k, i, j | 0 <= c < psi.Length0 && 0 <= k < psi.Length1 && 0 <= i < psi.Length2 && 0 <= j < psi.Length3 {
      psi[c, k, i, j] := Scale(Multiplier(psi[0, k, i, j]), psi[c, k, i, j]);
    }
    SignFixedIsUnique(before, Contents(psi), psi.Length0, psi.Length2, psi.Length3);
    failed := exists k, i, j | 0 <= k < psi.Length1 && 0 <= i < psi.Length2 && 0 <= j < psi.Length3 ::
                psi[0, k, i, j].re < 0.0;
    SignFixedProperties(before, psi.Length0, psi.Length2, psi.Length3);
  }

  // ------------------------------------------------------ _get_bands

  datatype BandSet = BandSet(e: Field3<real>, psi: Field4<Complex>)

  /** The check on H.transpose(2, 3, 0, 1) is the check on H itself. */
  lemma HermitianCheckAgrees(h: Field4<Complex>)
    requires IsHamiltonianField(h)
    ensures AllHermitian(PointMatrices(h)) <==> HermitianField(h)
  {
    if AllHermitian(PointMatrices(h)) {
      HermitianPointsGiveField(h);
    } else {
      if HermitianField(h) { HermitianFieldGivesPoints(h); }
    }
  }

  lemma HermitianPointsGiveField(h: Field4<Complex>)
    requires IsHamiltonianField(h) && AllHermitian(PointMatrices(h))
    ensures HermitianField(h)
  {
    var p := PointMatrices(h);
    forall a, b, i, j | 0 <= a < |h| && 0 <= b < |h| && 0 <= i < NumX(h) && 0 <= j < NumY(h)
      ensures h[a][b][i][j] == Conj(h[b][a][i][j])
    {
      var m := MatrixAt(h, i, j);
      assert p[i][j] == m;
      assert IsHermitian(m);
      assert m[a][b] == Conj(m[b][a]);
    }
  }

  lemma HermitianFieldGivesPoints(h: Field4<Complex>)
    requires IsHamiltonianField(h) && HermitianField(h)
    ensures AllHermitian(PointMatrices(h))
  {
    var p := PointMatrices(h);
    forall i, j | 0 <= i < |p| && 0 <= j < |p[i]|
      ensures IsHermitian(p[i][j])
    {
      var m := MatrixAt(h, i, j);
      assert p[i][j] == m;
      forall a, b | 0 <= a < |m| && 0 <= b < |m|
        ensures m[a][b] == Conj(m[b][a])
      {
        assert m[a][b] == h[a][b][i][j];
      }
    }
  }

  /** The eigh route: eigh at every point, E.transpose(2, 0, 1), then
      fix_first_component_sign on Psi.transpose(2, 3, 0, 1), then the
      transpose that puts the eigenvector index first. */
  function EighBands(h: Field4<Complex>, eighOf: CMatrix -> Eigen<real>): (r: Result<BandSet>)
    requires IsHamiltonianField(h) && SolverShaped(eighOf)
    ensures r.Ok?
    ensures Shape3(r.value.e, |h|, NumX(h), NumY(h)) && Shape4(r.value.psi, |h|, |h|, NumX(h), NumY(h))
  {
    EighLayout(SolveEach(h, eighOf), |h|, NumX(h), NumY(h))
  }

  /** The eigh route on the solver's output. */
  function EighLayout(s: Field2<Eigen<real>>, n: nat, nx: nat, ny: nat): (r: Result<BandSet>)
    requires SolutionShaped(s, n, nx, ny) && n >= 1
    ensures r.Ok?
    ensures Shape3(r.value.e, n, nx, ny) && Shape4(r.value.psi, n, n, nx, ny)
  {
    var e := ValuesBandMajor(s, n, nx, ny);
    var v := VectorsComponentMajor(s, n, nx, ny);
    match FixedSigns(v, n, nx, ny)
    case Err(err) => Err(err)
    case Ok(w) => Ok(BandSet(e, SwapLeadingAxes(w, n, nx, ny)))
  }

  /** The eigh route at grid point (i, j) of the solver's output. */
  lemma EighLayoutAtPoint(s: Field2<Eigen<real>>, n: nat, nx: nat, ny: nat, i: nat, j: nat)
    requires SolutionShaped(s, n, nx, ny) && n >= 1 && i < nx && j < ny
    ensures var r := EighLayout(s, n, nx, ny).value;
            && (forall k :: 0 <= k < n ==> r.e[k][i][j] == s[i][j].values[k])
            && (forall k, c :: 0 <= k < n && 0 <= c < n ==>
                  r.psi[k][c][i][j] == Scale(Multiplier(s[i][j].vectors[0][k]), s[i][j].vectors[c][k]))
            && (forall k :: 0 <= k < n ==> r.psi[k][0][i][j].re >= 0.0)
  {
    var v := VectorsComponentMajor(s, n, nx, ny);
    SignFixedProperties(v, n, nx, ny);
  }

  /** The eig route: eig at every point, sort_eigen on the transposed
      arrays, the real part of the sorted eigenvalues, and the final
      transpose; no sign fixing. */
  function EigBands(h: Field4<Complex>, eigOf: CMatrix -> Eigen<Complex>): (r: BandSet)
    requires IsHamiltonianField(h) && SolverShaped(eigOf)
    ensures Shape3(r.e, |h|, NumX(h), NumY(h)) && Shape4(r.psi, |h|, |h|, NumX(h), NumY(h))
  {
    EigLayout(SolveEach(h, eigOf), |h|, NumX(h), NumY(h))
  }

  /** The eig route on the solver's output. */
  function EigLayout(s: Field2<Eigen<Complex>>, n: nat, nx: nat, ny: nat): (r: BandSet)
    requires SolutionShaped(s, n, nx, ny)
    ensures Shape3(r.e, n, nx, ny) && Shape4(r.psi, n, n, nx, ny)
  {
    var sorted := SortEigen(ValuesBandMajor(s, n, nx, ny), VectorsComponentMajor(s, n, nx, ny), n, nx, ny);
    BandSet(RealParts(sorted.0, n, nx, ny), SwapLeadingAxes(sorted.1, n, nx, ny))
  }

  /** _get_bands(Kx, Ky, eigh): Hfunc, the Hermitian check (a plain Exception when it
      fails), then one of the two diagonalisation routes. */
  function GetBandsMesh(kx2: Field2<real>, ky2: Field2<real>,
                        hfunc: (Field2<real>, Field2<real>) -> Field4<Complex>,
                        eighOf: CMatrix -> Eigen<real>, eigOf: CMatrix -> Eigen<Complex>,
                        eigh: bool): (r: Result<BandSet>)
    requires IsHamiltonianField(hfunc(kx2, ky2))
    requires SolverShaped(eighOf) && SolverShaped(eigOf)
    ensures var h := hfunc(kx2, ky2);
            && (r.Err? <==> !HermitianField(h))
            && (r.Err? ==> r.error == NotHermitian)
            && (r.Ok? && eigh ==> r == EighBands(h, eighOf))
            && (r.Ok? && !eigh ==> r == Ok(EigBands(h, eigOf)))
  {
    var h := hfunc(kx2, ky2);
    HermitianCheckAgrees(h);
    if !AllHermitian(PointMatrices(h)) then Err(NotHermitian)
    else if eigh then EighBands(h, eighOf)
    else Ok(EigBands(h, eigOf))
  }

  /** eigh route at grid point (i, j): E[k][i][j] is eigh's k-th value in
      eigh's own order (no re-sorting), Psi[k][:, i, j] is eigh's column k
      multiplied as a whole by the sign multiplier of its first component,
      and every first component ends with a non-negative real part. */
  lemma EighRoute(h: Field4<Complex>, eighOf: CMatrix -> Eigen<real>, i: nat, j: nat)
    requires IsHamiltonianField(h) && SolverShaped(eighOf)
    requires i < NumX(h) && j < NumY(h)
    ensures var r := EighBands(h, eighOf).value;
            var sol := eighOf(MatrixAt(h, i, j));
            && (forall k :: 0 <= k < |h| ==> r.e[k][i][j] == sol.values[k])
            && (forall k, c :: 0 <= k < |h| && 0 <= c < |h| ==>
                  r.psi[k][c][i][j] == Scale(Multiplier(sol.vectors[0][k]), sol.vectors[c][k]))
            && (forall k :: 0 <= k < |h| ==> r.psi[k][0][i][j].re >= 0.0)
  {
    EighLayoutAtPoint(SolveEach(h, eighOf), |h|, NumX(h), NumY(h), i, j);
  }

  /** eig route at grid point (i, j): one argsort permutation p of the real
      parts relabels the eigenvalues (kept as real parts only) and the
      eigenvector columns together, and E comes out non-decreasing along the
      band axis. */
  lemma EigRoute(h: Field4<Complex>, eigOf: CMatrix -> Eigen<Complex>, i: nat, j: nat)
    requires IsHamiltonianField(h) && SolverShaped(eigOf)
    requires i < NumX(h) && j < NumY(h)
    ensures var sol := eigOf(MatrixAt(h, i, j));
            var p := Argsort(RealKeys(sol.values));
            EigPointSorted(EigBands(h, eigOf), |h|, NumX(h), NumY(h), sol, p, i, j)
  {
    var s := SolveEach(h, eigOf);
    EigLayoutAtPoint(s, |h|, NumX(h), NumY(h), i, j);
  }

  /** What the eig route promises at grid point (i, j) of an n-band result r,
      for the solver output sol there and the argsort permutation p of its
      real parts. */
  predicate EigPointSorted(r: BandSet, n: nat, nx: nat, ny: nat, sol: Eigen<Complex>, p: seq<nat>, i: nat, j: nat)
    requires Shape3(r.e, n, nx, ny) && Shape4(r.psi, n, n, nx, ny) && i < nx && j < ny
    requires |sol.values| == n && IsSquare(sol.vectors, n)
  {
    && IsPermutation(p, n) && |p| == n && InRange(p, n)
    && (forall k :: 0 <= k < n ==> r.e[k][i][j] == sol.values[p[k]].re)
    && (forall k, c :: 0 <= k < n && 0 <= c < n ==> r.psi[k][c][i][j] == sol.vectors[c][p[k]])
    && (forall a, b :: 0 <= a < b < n ==> r.e[a][i][j] <= r.e[b][i][j])
  }

  lemma EigLayoutAtPoint(s: Field2<Eigen<Complex>>, n: nat, nx: nat, ny: nat, i: nat, j: nat)
    requires SolutionShaped(s, n, nx, ny) && i < nx && j < ny
    ensures EigPointSorted(EigLayout(s, n, nx, ny), n, nx, ny, s[i][j], Argsort(RealKeys(s[i][j].values)), i, j)
  {
    var e0 := ValuesBandMajor(s, n, nx, ny);
    var v0 := VectorsComponentMajor(s, n, nx, ny);
    SortEigenAtPoint(e0, v0, n, nx, ny, i, j);
    assert Column(e0, i, j) == s[i][j].values;
  }

  // -------------------------------------------------------- get_bands

  datatype GridBands = GridBands(kx: seq<real>, ky: seq<real>, kx2: Field2<real>, ky2: Field2<real>, bands: BandSet)

  /** get_bands: the linspace axes, their 'ij' meshgrid, and _get_bands on
      it; the properties of the axes and the mesh are those of Linspace
      (LinspaceEvenlySpaced) and MeshgridIJ. */
  function GetBands(kxlims: (real, real), kylims: (real, real), nkx: nat, nky: nat,
                    hfunc: (Field2<real>, Field2<real>) -> Field4<Complex>,
                    eighOf: CMatrix -> Eigen<real>, eigOf: CMatrix -> Eigen<Complex>,
                    eigh: bool): (r: Result<GridBands>)
    requires var mesh := MeshgridIJ(Linspace(kxlims.0, kxlims.1, nkx), Linspace(kylims.0, kylims.1, nky));
             var h := hfunc(mesh.0, mesh.1);
             IsHamiltonianField(h) && NumX(h) == nkx && NumY(h) == nky
    requires SolverShaped(eighOf) && SolverShaped(eigOf)
    ensures var kx := Linspace(kxlims.0, kxlims.1, nkx);
            var ky := Linspace(kylims.0, kylims.1, nky);
            var mesh := MeshgridIJ(kx, ky);
            var b := GetBandsMesh(mesh.0, mesh.1, hfunc, eighOf, eigOf, eigh);
            && (r.Err? <==> b.Err?)
            && (r.Err? ==> r.error == b.error)
            && (r.Ok? ==> r.value == GridBands(kx, ky, mesh.0, mesh.1, b.value))
    ensures var mesh := MeshgridIJ(Linspace(kxlims.0, kxlims.1, nkx), Linspace(kylims.0, kylims.1, nky));
            var N := |hfunc(mesh.0, mesh.1)|;
            r.Ok? ==> |r.value.kx| == nkx && |r.value.ky| == nky &&
                      Shape3(r.value.bands.e, N, nkx, nky) && Shape4(r.value.bands.psi, N, N, nkx, nky)
  {
    var kx := Linspace(kxlims.0, kxlims.1, nkx);
    var ky := Linspace(kylims.0, kylims.1, nky);
    var mesh := MeshgridIJ(kx, ky);
    match GetBandsMesh(mesh.0, mesh.1, hfunc, eighOf, eigOf, eigh)
    case Err(err) => Err(err)
    case Ok(b) => Ok(GridBands(kx, ky, mesh.0, mesh.1, b))
  }
}
