# Alternating solver of the graph-regularised matrix factorisation

This project models the bookkeeping of `src/solver.cpp`, the numerical core
of an R package that factorises a data matrix X (n individuals by
cols = D * L columns) as Q * G^T. Each row of Q holds the K ancestry
coefficients of one individual and must be a probability vector. G holds the
loadings: every block of D consecutive rows is one locus, and each column of
a block must be a probability vector too. A graph Laplacian adds a
smoothness penalty through its eigendecomposition.

The model covers the parts of the solver that are not linear algebra:

- the two constraint projections, `ProjectQ` and `ProjectG`, as in-place
  methods over `array2<real>`, proved against the pure functions
  `ProjectRows` and `ProjectBlocks`;
- the effective weight lambda derived from lambda', the spectrum and the
  dimensions, including C++ truncating `int` division and the
  division-by-zero cases;
- the main loop shared by `ComputeMCPASolution` and
  `ComputeMCPASolutionNoCopyX`:
  - which inputs each per-row solve receives, including the per-row ridge
    shift lambda * vps(i);
  - the back-transform Q = R^T * RQ;
  - the sentinel err = -10;
  - the convergence test and the iteration cap;
- the worker-count set-up `InitOpenMP`.

The Eigen solves, the eigendecomposition and the residual norm are not
interpreted. The eigenvalues and the transposed eigenvectors are value
fields of `Solver.Problem`, and the two solves and the residual norm are
function-valued fields, so every theorem holds for any eigensolver and any
implementation of the solves. Entries are exact reals.

Modules: `Matrices` (matrix values and products), `Projections`,
`Regularisation`, `Solver`, `Threads`.

## Model

| member | source | states |
|---|---|---|
| Projections.Floor | src/solver.cpp:39 | the floored entry is at least 1e-5 and at least the old entry, and is one of the two |
| Projections.ProjectRow | src/solver.cpp:37-42 | defining function of one projected row (floor each entry at 1e-5, divide by the floored sum); keeps the length; its properties are carried by ProjectRowEntry, ProjectRowSumsToOne, ProjectRowPositive, ProjectRowFixed and ProjectRowNotIdempotent |
| Projections.ProjectRowEntry | src/solver.cpp:36-43 | each projected entry is max(1e-5, old) divided by the sum of the floored row, and that sum is at least n * 1e-5 > 0 |
| Projections.ProjectRowSumsToOne | src/solver.cpp:36-43 | a non-empty projected row sums to exactly 1 |
| Projections.ProjectRowPositive | src/solver.cpp:36-43 | every projected entry is strictly positive |
| Projections.ProjectRowFixed | src/solver.cpp:36-43 | a row that sums to 1 with every entry at least 1e-5 is unchanged |
| Projections.ProjectRowTwice | src/solver.cpp:36-43 | projecting twice equals projecting once when the first projection left every entry at least 1e-5 |
| Projections.BelowFloorAfterProjection | src/solver.cpp:39-42 | normalising can push an entry below 1e-5: [1e-5, 100] yields a first entry below 1e-5 |
| Projections.ProjectRowNotIdempotent | src/solver.cpp:36-43 | on [1e-5, 100] a second projection differs from the first |
| Projections.ProjectRows | src/solver.cpp:36-43 | defining function of ProjectQ's result, every row projected on its own; keeps the shape; its properties are carried by ProjectRowsStochastic and ProjectQ |
| Projections.ProjectRowsStochastic | src/solver.cpp:34-44 | with at least one column, every row of ProjectQ's result is a strictly positive vector summing to 1 |
| Projections.FloorRow | src/solver.cpp:37-41 | the inner loop floors exactly row i and returns the sum of the floored row; nothing else changes |
| Projections.ProjectRowAt | src/solver.cpp:37-42 | row i becomes the projection of its old value; other rows are untouched |
| Projections.ProjectQ | src/solver.cpp:34-44 | the new Q is ProjectRows of the old Q; with K >= 1 every row is a strictly positive probability vector |
| Projections.CppDiv | src/solver.cpp:47 | defining function of C++ `int` division, truncating toward zero; its properties are carried by CppDivOfNat and Regularisation.WholeBlockColumns |
| Projections.CppDivOfNat | src/solver.cpp:47 | `G.rows() / D` truncates: the Euclidean quotient for D > 0, and at most 0 for D < 0 |
| Projections.BlockIndexInBounds | src/solver.cpp:50-53 | rows D*l .. D*l+D-1 of a whole block lie inside G, below L*D |
| Projections.BlockPosition | src/solver.cpp:52-53 | row D*l + j is offset j of block l |
| Projections.BlockOfRow | src/solver.cpp:47-53 | every row below L*D belongs to exactly one block, at offset r % D |
| Projections.BlockVisitedOnce | src/solver.cpp:50-53 | (l, j) to D*l + j is one-to-one, so each entry is floored once |
| Projections.ProjectBlocks | src/solver.cpp:47-58 | defining function of ProjectG's result; keeps the shape; its properties are carried by ProjectBlocksEntry, ProjectBlocksSlice, ProjectBlocksStochastic, ProjectBlocksTail, ProjectBlocksFixed and ProjectG |
| Projections.ProjectBlocksEntry | src/solver.cpp:50-56 | offset j of block l in column k is the projection of the old slice at j |
| Projections.ProjectBlocksSlice | src/solver.cpp:50-56 | the whole slice of block l in column k is the projection of the old slice |
| Projections.ProjectBlocksStochastic | src/solver.cpp:46-59 | with D >= 1, every block-column slice is strictly positive and sums to 1 |
| Projections.ProjectBlocksTail | src/solver.cpp:47-50 | rows from L*D on, and every row when D < 0, are left untouched |
| Projections.ProjectBlocksFixed | src/solver.cpp:46-59 | a G whose slices already sum to 1 with entries at least 1e-5 is a fixed point |
| Projections.FloorBlock | src/solver.cpp:51-55 | floors exactly the D entries of the slice and returns their floored sum; nothing else changes |
| Projections.ProjectBlockAt | src/solver.cpp:51-56 | the slice becomes the projection of its old value; everything else is unchanged |
| Projections.ProjectColumn | src/solver.cpp:50-57 | column k becomes column k of ProjectBlocks of the old G; other columns are unchanged |
| Projections.ProjectG | src/solver.cpp:46-59 | the new G is ProjectBlocks of the old G; with D >= 1 every block-column slice is a strictly positive probability vector |
| Regularisation.MaxCoeff | src/solver.cpp:83 | the result bounds every eigenvalue and is one of them |
| Regularisation.Lambda | src/solver.cpp:83-87 | defining function of the weight (also lines 175-179): 0 on a flat spectrum, otherwise the int-product formula or a non-finite value; its properties are carried by LambdaFlatSpectrum, LambdaNonFinite, LambdaNormalised and LambdaNonNegative |
| Regularisation.Formula | src/solver.cpp:86 | defining function of `lambdaPrim * (D * L * n) / (K * n * vpMax)` with int products; FormulaCancels shows n cancels |
| Regularisation.LambdaFlatSpectrum | src/solver.cpp:84-85 | lambda is 0 when the largest eigenvalue is 0, whatever the other inputs |
| Regularisation.LambdaNonFinite | src/solver.cpp:85-86 | the formula divides by zero exactly when vpMax != 0 and K * n == 0 |
| Regularisation.LambdaNormalised | src/solver.cpp:71-86 | with vpMax != 0, K > 0, n > 0, n cancels: lambda = lambda' * (D*L) / (K * vpMax) |
| Regularisation.WholeBlockColumns | src/solver.cpp:71 | 0 <= D*L <= cols and cols - D*L < abs(D); D*L = cols when abs(D) divides cols |
| Regularisation.LambdaNonNegative | src/solver.cpp:71-86 | lambda' >= 0, vpMax > 0, K > 0 and n > 0 give a finite lambda >= 0, and lambda = lambda' * cols / (K * vpMax) when abs(D) divides cols |
| Matrices.MatMul | src/solver.cpp:79 | defining function of a matrix product by inner products of rows and columns (RX = R * X, and R^T * RQ at line 136); keeps the shape; RowOfProduct relates it to VecMat |
| Matrices.VecMat | src/solver.cpp:230 | defining function of `R.row(i) * X` as a combination of X's rows (also line 234); VecMatEntry and RowOfProduct connect it to MatMul |
| Matrices.VecMatEntry | src/solver.cpp:230 | entry j of `R.row(i) * X`, as a combination of rows, is the inner product of R's row i with column j of X |
| Matrices.RowOfProduct | src/solver.cpp:79 | row i of RX = R * X equals the recomputed `R.row(i) * X` |
| Solver.Abs | src/solver.cpp:144 | the result is non-negative and equals x or -x |
| Solver.Loadings | src/solver.cpp:119-121 | defining function of the work-shared loop: row j of G is the least-squares solve against Q for X.col(j); cols-by-K; UpdateLoadings is proved against it |
| Solver.PhaseA | src/solver.cpp:111-124 | defining function of the G update, Loadings then ProjectG; cols-by-K; UpdateLoadings and PassSimplex carry its properties |
| Solver.RidgeRows | src/solver.cpp:130-133 | defining function of the per-row ridge solves with shift lambda * vps(i) against row i of RX; n-by-K; UpdateMemberships is proved against it |
| Solver.PhaseB | src/solver.cpp:126-137 | defining function of the Q update, ProjectRows(R^T * RQ); n-by-K; UpdateMemberships and PassSimplex carry its properties |
| Solver.Pass | src/solver.cpp:111-137 | defining function of one pass: the new G from the old Q, then the new Q from the new G; shapes n-by-K and cols-by-K; PassSimplex carries its properties |
| Solver.Iterate | src/solver.cpp:108-148 | defining function of the state after m passes; MainLoop is proved against it and PassSimplex, OutcomeSimplex are about it |
| Solver.Residuals | src/solver.cpp:140-146 | defining function of the errAux sequence of the first m passes, of length m; ResidualsPrefix and MainLoop carry its properties |
| Solver.ConvergedAt | src/solver.cpp:144 | defining predicate of the convergence test of pass m against the previous err (the sentinel -10 on pass 0); FirstTest, ConvergedAtPrefix and ConvergedAtOfPrefix carry its properties |
| Solver.UpdateLoadings | src/solver.cpp:111-124 | G becomes ProjectBlocks of the per-row least-squares fits against the current Q |
| Solver.UpdateMemberships | src/solver.cpp:126-137 | Q becomes ProjectRows(R^T * RQ), where row i of RQ is the ridge fit with shift lambda * vps(i); the copy and no-copy right-hand sides give the same Q |
| Solver.MainLoop | src/solver.cpp:94-148 | the loop stops at the first converged pass or at maxIteration; errs, err, converg, Q and G are those of Iterate and Residuals after `it` passes |
| Solver.ComputeMCPASolution | src/solver.cpp:69-150 | with R * X precomputed, the result satisfies Outcome for the problem with the derived lambda |
| Solver.ComputeMCPASolutionNoCopyX | src/solver.cpp:161-255 | with R.row(i) * X recomputed per row, the result satisfies the same Outcome |
| Solver.FirstTest | src/solver.cpp:94 | against the sentinel -10, a non-negative first residual converges iff it is below tolerance - 10; never when tolerance <= 10 |
| Solver.ResidualsPrefix | src/solver.cpp:140-146 | the residuals of a shorter run are a prefix of those of a longer run |
| Solver.ConvergedAtOfPrefix | src/solver.cpp:144 | the test on pass m depends only on the first m + 1 residuals |
| Solver.ConvergedAtPrefix | src/solver.cpp:144-146 | appending a residual leaves earlier tests unchanged |
| Solver.EarlierStopImpossible | src/solver.cpp:108 | a run that stopped after it1 passes cannot coexist with one from the same inputs that ran longer |
| Solver.OutcomeUnique | src/solver.cpp:108 | the loop's outcome is a function of the inputs, so the copying and non-copying solvers return the same iteration count, errors, Q and G |
| Solver.PassSimplex | src/solver.cpp:119-137 | after any pass, Q's rows (K >= 1) and G's whole-block column slices (D >= 1) are strictly positive probability vectors |
| Solver.OutcomeSimplex | src/solver.cpp:108-148 | what the solvers leave after at least one pass satisfies those constraints |
| Solver.OutcomeRuns | src/solver.cpp:105-108 | a positive maxIteration runs at least one pass; a non-positive one leaves err = -10, converg false and Q, G unchanged |
| Threads.InitOpenMP | src/solver.cpp:13-27 | with OpenMP the count is min(requested, procs), with a message iff it was lowered; without OpenMP it is 1, with a warning iff more than one was requested |
| Threads.ClampIsMinimum | src/solver.cpp:15-19 | every count allowed by both the request and the processors is at most the chosen count |
| Threads.ClampPositive | src/solver.cpp:15-19 | a positive request on a machine with processors yields at least one thread |

## Left out

- The eigendecomposition, the LDLT factorisations and solves, the matrix norm and `Eigen::initParallel` are not modelled. The eigenvalues, the transposed eigenvectors R and the three solve/norm results are inputs of `Solver.Problem`, so nothing is proved about their numerical content.
- Solver.ComputeMCPASolution: takes R and vps as inputs. It assumes X has at least one row, because Eigen's `maxCoeff` needs a non-empty `vps`. It assumes R is n-by-n, K equals `Q.cols()` and `G.cols()`, `Q.rows()` is n, and `G.rows()` is `X.cols()`; the last two are needed by `X.col(j)` at line 120 and `G^T * RX.row(i)^T` at line 132. It also assumes Q and G are distinct matrices. The source computes R and vps itself and never checks these conditions.
- Solver.ComputeMCPASolution: requires the derived lambda to be finite. When vpMax != 0 and K * n == 0 the source divides by zero and proceeds with an infinity or a NaN; `Regularisation.LambdaNonFinite` characterises exactly that case.
- Solver.ComputeMCPASolutionNoCopyX: requires the same dimensions and finite lambda as `ComputeMCPASolution`.
- OpenMP parallelism is not modelled: the `parallel`, `master`, `barrier` and `for` pragmas are left out. The work-shared loops become `forall` statements over independent rows, which is the result a correct schedule produces.
- The per-thread scratch `RXi` and `omp_get_thread_num` are not modelled. The model keeps only the value each row solve receives, `R.row(i) * X`.
- `Solver.Pass` does not model `RQ = R * Q` at lines 127 and 224. It is dead, because the per-row loop then overwrites every row of RQ, so the model starts RQ directly from the per-row solves.
- Console output, the `verbose` flag and the R warning are left out. In `Threads.InitOpenMP` they become the `advisory` flag.
- Double-precision rounding and NaN propagation are not modelled: entries are exact reals. Overflow of the `int` products `D * L * n` and `K * n` is not modelled either.
- `D == 0` is excluded by `requires d != 0`, because the source divides by D (undefined behaviour in C++).
- Threads.InitOpenMP: `omp_get_num_procs` is a parameter. Requests of 0 or fewer threads are passed through as the source does, but what OpenMP then does is not modelled.
- `src/graph.cpp` is not part of this model. It builds the Laplacian, which the solver only receives.
- One might expect ProjectQ and ProjectG to leave every entry at least 1e-5 and to be idempotent. The code normalises after flooring, so neither holds. The model proves strict positivity only, and proves that both expectations fail: see `Projections.BelowFloorAfterProjection` and `Projections.ProjectRowNotIdempotent`.
