# blg_strain core, modelled in Dafny

This project models three files of the `blg_strain` package. The package
computes bands, Berry curvature, magnetic moment and occupation for
(strained) bilayer graphene on a rectangular k-space grid.

- `blg_strain/bands.py` becomes module `Bands` (`bands.dfy`):
  - `get_bands` builds the linear k axes and their `ij` meshgrid.
  - `_get_bands` evaluates the Hamiltonian, checks that it is Hermitian at every grid point, and diagonalises it by one of two routes. The `eigh` route fixes eigenvector signs; the `eig` route sorts by eigenvalue and keeps real parts.
  - `sort_eigen` performs the argsort gather.
  - `fix_first_component_sign` is a parallel update in place on a four-index array.
- `blg_strain/berry.py` becomes module `Berry` (`berry.dfy`):
  - `berry_mu` is an imperative method with the source's nested band loops, writing into two four-index arrays.
  - It is proved equal to a per-point reference definition of the Berry curvature and the magnetic moment.
  - Both product strategies, `einsum` and `tensordot`, are modelled and proved to agree.
- `blg_strain/microscopic.py` becomes module `Microscopic` (`microscopic.dfy`):
  - `meff_func` fills a five-index array and inverts each 2x2 block.
  - `feq_func` is the Fermi-Dirac occupation with hole flipping.
  - `check_f_boundaries` is a scan over bands and their two edge rows and columns.

Supporting modules:

- `ComplexArith` (`complex.dfy`): complex numbers over the reals.
- `Sums` (`sums.dfy`): finite sums, exchange of summation order, antisymmetric double sums.
- `Arrays` (`arrays.dfy`): nested sequences used as numpy arrays, with shapes and extensionality.
- `Units` (`constants.dfy`): the physical constants, known only to be positive.
- `RealField` (`reals.dfy`): single steps of field arithmetic over the reals.

Some inputs become parameters of the model:

- the Hamiltonian `Hfunc`, and the derivative matrices `H_dkx(xi)` and `H_dky()`;
- the eigensolvers `np.linalg.eigh` and `np.linalg.eig`;
- the exponential function.

Numbers are exact reals. Where the source divides by a square, the model divides twice by the base. Over the reals this is the same value. It keeps the solver's nonlinear arithmetic out of the proofs.

## Model

| member | source | states |
|---|---|---|
| Bands.Linspace | blg_strain/bands.py:30-31 | `num` samples, the first equal to the lower limit and (when num >= 2) the last equal to the upper limit |
| Bands.LinspaceEvenlySpaced | blg_strain/bands.py:30-31 | the samples are lo + i*step, consecutive samples differ by the same step, and they strictly increase when lo < hi |
| Bands.MeshgridIJ | blg_strain/bands.py:33 | `ij` indexing: both grids have shape len(x) x len(y), Kx[i][j] == x[i] and Ky[i][j] == y[j] |
| Bands.MatrixAt | blg_strain/bands.py:59 | after the transpose, the matrix at grid point (i, j) is square of the band count and holds H[a][b][i][j] |
| Bands.PointMatrices | blg_strain/bands.py:59 | the transposed field has shape Nkx x Nky and holds the matrix of each grid point |
| Bands.HermitianCheckAgrees | blg_strain/bands.py:62-63 | the check that each point matrix equals its conjugate transpose holds exactly when H[a][b][i][j] == conj(H[b][a][i][j]) everywhere |
| Bands.SolveEach | blg_strain/bands.py:66-69 | the solver is applied to every grid point's matrix and its output keeps the solver's shapes |
| Bands.ValuesBandMajor | blg_strain/bands.py:72 | E has shape N x Nkx x Nky and E[k][i][j] is the solver's k-th eigenvalue at (i, j) |
| Bands.VectorsComponentMajor | blg_strain/bands.py:73 | Psi[c][k][i][j] is component c of eigenvector k (column k) at (i, j) |
| Bands.SwapLeadingAxes | blg_strain/bands.py:88 | the final transpose exchanges the first two axes and nothing else |
| Bands.RealParts | blg_strain/bands.py:82 | E.real keeps the real part of every entry |
| Bands.InsertKeepsSorted | blg_strain/bands.py:111 | inserting an index into an index list sorted by its keys keeps it sorted |
| Bands.ArgsortPrefixSorted | blg_strain/bands.py:111 | the index list built from the first n keys is sorted by key |
| Bands.ArgsortPrefixGathers | blg_strain/bands.py:111 | gathering by that index list rearranges the first n entries as a multiset |
| Bands.ArgsortPrefixPermutation | blg_strain/bands.py:111 | that index list is a permutation of 0..n-1 |
| Bands.Argsort | blg_strain/bands.py:111 | argsort returns a permutation of the indices along which the keys are non-decreasing |
| Bands.ArgsortPermutes | blg_strain/bands.py:111-114 | gathering any sequence of the same length by the argsort is a permutation of it |
| Bands.SortIndices | blg_strain/bands.py:107-111 | at every grid point the index field is the argsort of that point's eigenvalues |
| Bands.GatherValues | blg_strain/bands.py:114 | the sorted eigenvalues are eigs[ind[k][i][j]][i][j] |
| Bands.GatherVectors | blg_strain/bands.py:112-114 | vectors are gathered along the second axis: vecs[c][ind[k][i][j]][i][j] |
| Bands.SortEigen | blg_strain/bands.py:107-114 | sort_eigen keeps both shapes |
| Bands.SortEigenAtPoint | blg_strain/bands.py:107-114 | at each grid point one permutation relabels values and eigenvector columns together, and the sorted real parts are non-decreasing |
| Bands.Multiplier | blg_strain/bands.py:123 | 2 * (re > 0) - 1 is always +1 or -1, and +1 exactly when the real part is positive |
| Bands.SignFixed | blg_strain/bands.py:123-124 | every component of vector k is multiplied by +1 when its first component has positive real part and by -1 otherwise |
| Bands.SignFixedProperties | blg_strain/bands.py:121-131 | after the flip, vectors with a positive first component are unchanged, the others are negated whole, and no first component has negative real part |
| Bands.SignFixedIsUnique | blg_strain/bands.py:123-124 | any field with the multiplied entries is the sign-fixed field |
| Bands.FixedSigns | blg_strain/bands.py:129-133 | the post-check never raises: the result is always the sign-fixed field |
| Bands.FixFirstComponentSign | blg_strain/bands.py:117-133 | in place, the array becomes the sign-fixed field of its old contents, and the negative-first-component check does not fire |
| Bands.EighBands | blg_strain/bands.py:65-88 | the eigh route succeeds and has shapes N x Nkx x Nky and N x N x Nkx x Nky |
| Bands.EighLayout | blg_strain/bands.py:72-88 | the same route, from the solver output to the result |
| Bands.EighLayoutAtPoint | blg_strain/bands.py:72-88 | at each point, E is eigh's values in eigh's order and Psi[k] is column k times its sign multiplier, with first component non-negative |
| Bands.EighRoute | blg_strain/bands.py:66-88 | EighLayoutAtPoint stated for the matrices of H |
| Bands.EigBands | blg_strain/bands.py:68-88 | the eig route has shapes N x Nkx x Nky and N x N x Nkx x Nky |
| Bands.EigLayout | blg_strain/bands.py:72-88 | the same route, from the solver output to the result |
| Bands.EigLayoutAtPoint | blg_strain/bands.py:72-88 | at each point one argsort permutation relabels the real parts of the values and the vectors together, and E is non-decreasing along the band axis |
| Bands.EigRoute | blg_strain/bands.py:69-88 | EigLayoutAtPoint stated for the matrices of H |
| Bands.GetBandsMesh | blg_strain/bands.py:42-92 | _get_bands fails, by the Hermitian exception, exactly when H is not Hermitian at some point; otherwise it is the eigh or the eig route as selected |
| Bands.GetBands | blg_strain/bands.py:6-39 | get_bands returns the linspace axes, their ij meshgrid and _get_bands on that mesh, or _get_bands' error; on success kx has Nkx and ky Nky points, E is N x Nkx x Nky and Psi N x N x Nkx x Nky |
| Berry.BraketForms | blg_strain/berry.py:39-54 | the einsum contraction of conj(psi_n), H and psi_m equals the tensordot-then-sum contraction |
| Berry.TermConj | blg_strain/berry.py:39-42 | one term of the contraction conjugates to the swapped term through a Hermitian entry |
| Berry.BraketHermitianSwap | blg_strain/berry.py:39-42 | for Hermitian H, the bra-ket of v, H, u is the conjugate of that of u, H, v |
| Berry.SwappedProduct | blg_strain/berry.py:39-57 | exchanging n and m conjugates prod1*prod2 |
| Berry.PairCurvature | blg_strain/berry.py:56 | the curvature term of the pair (n, m) is zero for n == m and, for distinct energies, times (e_n - e_m) gives the moment term of the pair |
| Berry.PairMoment | blg_strain/berry.py:57 | the moment term is zero for n == m and, for distinct energies, times (e_n - e_m) gives Im(prod1 * prod2) |
| Berry.OmegaAt | blg_strain/berry.py:56-62 | reference definition of Omega_n at one point: -2 times the sum over m of the curvature terms (no contract; its properties are the lemmas below) |
| Berry.MuAt | blg_strain/berry.py:57-63 | reference definition of Mu_n at one point: -q/hbar times the sum over m of the moment terms, over muB (no contract; BerryMu and MomentTableSums connect it to the loop) |
| Berry.CurvatureAntisymmetric | blg_strain/berry.py:56 | at a non-degenerate point with Hermitian hdkx, hdky, the curvature term of (m, n) is minus that of (n, m) |
| Berry.MomentSymmetric | blg_strain/berry.py:57 | at a non-degenerate point, the moment term of (m, n) equals that of (n, m) |
| Berry.CurvatureTableAntisymmetric | blg_strain/berry.py:56 | at a non-degenerate point, the table of curvature terms is antisymmetric over the bands |
| Berry.CurvatureSumsToZero | blg_strain/berry.py:56-62 | at a non-degenerate point the Berry curvatures of all bands add up to zero |
| Berry.PointOf | blg_strain/berry.py:28-29 | the bands at grid point (j, k): energy E[a][j][k] and eigenvector Psi[a][:, j, k] |
| Berry.OmegaField | blg_strain/berry.py:56-62 | Omega has shape N x Nkx x Nky and each entry is the per-point curvature of band n |
| Berry.MuField | blg_strain/berry.py:57-63 | Mu has that shape and each entry is the per-point moment of band n in Bohr magnetons |
| Berry.Locality | blg_strain/berry.py:39-63 | Omega and Mu at a grid point depend only on E and Psi at that point |
| Berry.EinsumProducts | blg_strain/berry.py:39-42 | prod1[j][k] is the bra-ket of psi_n, hdkx, psi_m and prod2[j][k] that of psi_m, hdky, psi_n, at every point |
| Berry.Tensordot | blg_strain/berry.py:49-50 | D[i][j][k] is the i-th entry of H applied to psi[:, j, k] |
| Berry.SumConjProduct | blg_strain/berry.py:53-54 | np.sum(conj(a) * D, axis=0): entry [j][k] is the sum over i of conj(a[i][j][k]) * D[i][j][k] |
| Berry.TensordotProducts | blg_strain/berry.py:49-54 | the tensordot strategy gives products with the grid's shape |
| Berry.TensordotEntry | blg_strain/berry.py:49-54 | summing conj(psi) * D over the first axis gives the bra-ket at each point |
| Berry.ProductStrategiesAgree | blg_strain/berry.py:33-54 | the two strategies give identical prod1 and prod2 |
| Berry.PairEntries | blg_strain/berry.py:56-57 | for distinct bands the written entries are Im(prod1*prod2) over (e_n - e_m) squared and over (e_n - e_m) |
| Berry.FillPair | blg_strain/berry.py:33-57 | one (n, m) step writes Omega[m, n] and Mu[m, n] at every point and leaves all other entries unchanged |
| Berry.SumFirstAxis | blg_strain/berry.py:59-60 | sum(axis=0): entry [n][j][k] is the sum over m of T[m][n][j][k] |
| Berry.CurvatureUnits | blg_strain/berry.py:62 | every entry is multiplied by -2 |
| Berry.MomentUnits | blg_strain/berry.py:63 | every entry becomes -q/hbar * x / muB |
| Berry.CurvatureTableSums | blg_strain/berry.py:56-62 | for a filled table of curvature terms, summing and scaling gives OmegaField |
| Berry.MomentTableSums | blg_strain/berry.py:57-63 | for a filled table of moment terms, summing and scaling gives MuField |
| Berry.BerryMu | blg_strain/berry.py:6-67 | berry_mu returns exactly OmegaField and MuField, whichever product strategy is chosen; its loop invariant (Filled) keeps the skipped n == m entries at their zero initialisation and every unvisited entry at zero |
| Berry.DistinctPoints | blg_strain/berry.py:28-29 | pairwise distinct energies on the grid make every grid point non-degenerate |
| Berry.OmegaFieldSumsToZero | blg_strain/berry.py:56-62 | in berry_mu's Omega, the curvatures of all bands add up to zero at every grid point, for Hermitian hdkx, hdky and distinct energies |
| Microscopic.InverseOver | blg_strain/microscopic.py:41 | inv(m) / m_e for one block, by the adjugate over the determinant (no contract; its property is InverseOverIsInverse) |
| Microscopic.InverseOverIsInverse | blg_strain/microscopic.py:41 | for a non-singular block, inv(m)/m_e times m_e*m is the identity on both sides |
| Microscopic.InvertBlocks | blg_strain/microscopic.py:41 | inverting every block gives a two-sided inverse of each block |
| Microscopic.OneOverM | blg_strain/microscopic.py:35-38 | the block of band n at (ky[j], kx[i]): multiplied by hbar twice it gives back [[E_dkx_dkx, E_dky_dkx], [E_dkx_dky, E_dky_dky]] |
| Microscopic.AssembleOneOverM | blg_strain/microscopic.py:33-38 | a fresh N x Nky x Nkx x 2 x 2 array whose four components are the second derivatives divided by hbar squared |
| Microscopic.MeffFunc | blg_strain/microscopic.py:6-41 | fails with the gradient error exactly when an axis has fewer than 3 points or a length mismatch; fails with the band-count error exactly when the gradients succeed and N != 4; fails as singular exactly when some block has zero determinant; otherwise each block times m_e*oneoverm is the identity on both sides |
| Microscopic.EffectiveTemperature | blg_strain/microscopic.py:53-54 | T below 1e-10 becomes 1e-10, any other T is kept, so the result is at least 1e-10 |
| Microscopic.FermiDirac | blg_strain/microscopic.py:55 | the Fermi-Dirac value lies strictly between 0 and 1 |
| Microscopic.Occupation | blg_strain/microscopic.py:55-56 | strictly between 0 and 1; equal to the Fermi-Dirac value for E >= 0 and its complement for E < 0 |
| Microscopic.HalfFilledAtFermiLevel | blg_strain/microscopic.py:55 | at E == EF >= 0 the occupation is exactly 1/2 |
| Microscopic.FeqFunc | blg_strain/microscopic.py:43-58 | the output has E's length, every entry is the occupation of that energy at the clamped temperature, and lies strictly between 0 and 1 |
| Microscopic.EdgesCoverBoundary | blg_strain/microscopic.py:71-75 | checking rows and columns 0 and -1 finds a value above the threshold exactly when some boundary point of the band has one |
| Microscopic.InteriorIrrelevant | blg_strain/microscopic.py:69-76 | two fields that agree on a band's boundary get the same verdict for it |
| Microscopic.CheckFBoundaries | blg_strain/microscopic.py:60-77 | raises IndexError exactly when there are bands and an empty spatial axis; otherwise warns for exactly the bands with a boundary value above the threshold, in increasing order |

## Left out

- The Hamiltonian `Hfunc` and its parameters (`xi`, `Delta`, `delta`, `theta`, `twobytwo`) are left out. `hamiltonian.py` is not part of this model, so `Hfunc` is a function parameter, and `H_dkx(xi)` and `H_dky()` are matrix parameters of `BerryMu`.
- `np.linalg.eigh` and `np.linalg.eig` (LAPACK) are function parameters. The model assumes only their output shapes, not that they return eigenpairs.
- The values of the physical constants (`utils/const.py`) are left out. They are positive reals.
- `np.gradient` is left out. `MeffFunc` takes the four second-derivative fields as inputs and keeps only the gradient's failure when an axis has fewer than `edge_order + 1 = 3` points or a mismatched spacing array.
- `np.exp` is a function parameter, assumed positive. `HalfFilledAtFermiLevel` also assumes exp(0) == 1.
- Floating-point rounding, signed zero, NaN and infinities are left out; all arithmetic is over exact reals.
- Bands.Argsort: sorts by real parts and returns *some* sorting permutation. numpy orders complex numbers by real then imaginary part and has its own tie order; the model's contract does not fix ties.
- Microscopic.MeffFunc: "singular" means a block determinant exactly zero. LAPACK's numerical singularity test is left out.
- Microscopic.MeffFunc: the division by `hbar**2` is written as two divisions by `hbar`.
- Berry.PairEntries: the division by `(e_n - e_m)**2` is written as two divisions by `e_n - e_m`.
- Berry.BerryMu: requires distinct energies at every point. When two bands meet, the source divides by zero and gets infinities or NaN, which exact reals cannot express.
- Berry.BerryMu: `zip(E, Psi)` truncates to the shorter axis. The model requires both to have N bands.
- The layouts of the three files disagree. `bands.py` produces N x Nkx x Nky. `meff_func`'s docstring says N x Nky x Nkx. `check_f_boundaries`' docstring says N x Nky x Nkx, but the comment on its `ndim` assert says n x Nkx x Nky. Each function keeps the layout that its own source uses; no conversion is modelled. `CheckFBoundaries` scans both rows and columns, so its verdict does not depend on which axis is kx.
- Microscopic.FeqFunc: `E` is a flat sequence and `EF` a scalar. numpy's broadcasting over arbitrary shapes is left out: the formula is pointwise, so the flat case carries it.
- Microscopic.CheckFBoundaries: the printed warning is modelled as the returned list of band indices. The message text is left out.
- Microscopic.CheckFBoundaries: `assert f.ndim == 3` is enforced by the argument's type.
- Bands.FixedSigns: the `Exception` for a negative first component cannot occur in exact arithmetic. The model proves it never fires.
- Default arguments are left out. Every model member takes these as explicit arguments instead:
  - `eigh=True` of `_get_bands`;
  - `eigh=False` and the defaults of `kxlims`, `kylims`, `Nkx` and `Nky` of `get_bands`;
  - `xi=1` and `einsum=True` of `berry_mu`; `xi` only selects `H_dkx(xi)`, which is a parameter;
  - `T=0` of `feq_func`;
  - `thresh=0.01` of `check_f_boundaries`.
- Berry.CurvatureAntisymmetric, Berry.MomentSymmetric, Berry.CurvatureTableAntisymmetric and Berry.CurvatureSumsToZero require a non-degenerate point. At a degenerate point the source's division gives infinities or NaN. The model gives such a pair the value 0 but promises nothing there.
