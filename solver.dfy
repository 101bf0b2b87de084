/**
 * The alternating solver of src/solver.cpp: `ComputeMCPASolution` (R * X
 * precomputed once) and `ComputeMCPASolutionNoCopyX` (row i of R * X
 * recomputed for every per-row solve).  The Eigen factorisations and solves,
 * the eigendecomposition and the residual norm are not interpreted: the
 * eigenvalues and eigenvectors are value fields of a `Problem`, the solves and
 * the norm function fields.  Everything around them - which inputs each
 * solve receives, the projections, the spectral back-transform, and the
 * iteration controller - is modelled exactly.
 */
module Solver {
  import opened Matrices
  import opened Projections
  import opened Regularisation

  /** The initial `err`, chosen so that the first test compares against -10. */
  const Sentinel: real := -10.0

  /** `std::abs` on doubles. */
  function Abs(x: real): (y: real)
    ensures y >= 0.0 && (y == x || y == -x)
  {
    if x < 0.0 then -x else x
  }

  /**
   * One solve's inputs.  `x` is X (n rows, `cols` columns); `r` is R, the
   * transposed eigenvector matrix of the Laplacian, and `vps` its eigenvalues,
   * as the eigensolver returns them; `lambda` the derived weight; `d` the block
   * width D; `k` the factor count K.
   *   - `loadingSolve(Q, X.col(j), c)`: entry c of `lltG.solve(Q^T * X.col(j))`,
   *     the least-squares row j of G (lines 114-120);
   *   - `ridgeSolve(G, s, rx, c)`: entry c of
   *     `(G^T G + s * I).ldlt().solve(G^T * rx^T)` (lines 132, 231, 235);
   *   - `residual(X, Q, G)`: `(X - Q * G^T).norm() / X.norm()` (lines 140, 245).
   */
  datatype Problem = Problem(
    x: Mat, r: Mat, vps: seq<real>, lambda: real, d: int, k: nat,
    loadingSolve: (Mat, seq<real>, nat) -> real,
    ridgeSolve: (Mat, real, seq<real>, nat) -> real,
    residual: (Mat, Mat, Mat) -> real)

  /** Mutually consistent dimensions: X is n-by-cols, R is n-by-n with n eigenvalues, D is not 0. */
  ghost predicate WellFormed(p: Problem, n: nat, cols: nat) {
    IsMatrix(p.x, n, cols) && IsMatrix(p.r, n, n) && |p.vps| == n && p.d != 0
  }

  /** The solver's mutable state: Q (n-by-K) and G (cols-by-K). */
  datatype State = State(q: Mat, g: Mat)

  /** The parallel loop of Phase A: G.row(j) is the least-squares fit of X.col(j) against Q. */
  function Loadings(p: Problem, n: nat, cols: nat, q: Mat): (g: Mat)
    requires WellFormed(p, n, cols)
    ensures IsMatrix(g, cols, p.k)
  {
    seq(cols, j requires 0 <= j < cols =>
      seq(p.k, c requires 0 <= c < p.k => p.loadingSolve(q, Col(p.x, cols, j), c)))
  }

  /** Phase A: the least-squares update of G followed by ProjectG. */
  function PhaseA(p: Problem, n: nat, cols: nat, q: Mat): (g: Mat)
    requires WellFormed(p, n, cols)
    ensures IsMatrix(g, cols, p.k)
  {
    ProjectBlocks(Loadings(p, n, cols, q), p.k, p.d)
  }

  /** The parallel loop of Phase B: RQ.row(i) is the ridge fit of row i of RX, with shift lambda * vps(i). */
  function RidgeRows(p: Problem, n: nat, cols: nat, g: Mat, rx: Mat): (rq: Mat)
    requires WellFormed(p, n, cols) && IsMatrix(rx, n, cols)
    ensures IsMatrix(rq, n, p.k)
  {
    seq(n, i requires 0 <= i < n =>
      seq(p.k, c requires 0 <= c < p.k => p.ridgeSolve(g, p.lambda * p.vps[i], rx[i], c)))
  }

  /** Phase B: the per-row spectral solves against RX = R * X, Q = R^T * RQ, then ProjectQ. */
  function PhaseB(p: Problem, n: nat, cols: nat, g: Mat): (q: Mat)
    requires WellFormed(p, n, cols)
    ensures IsMatrix(q, n, p.k)
  {
    var rq := RidgeRows(p, n, cols, g, MatMul(p.r, p.x, n, cols));
    var qr := MatMul(Transpose(p.r, n), rq, n, p.k);
    ProjectRows(qr)
  }

  /** One pass of the main loop. Only Q enters it: Phase A overwrites every row of G. */
  function Pass(p: Problem, n: nat, cols: nat, s: State): (t: State)
    requires WellFormed(p, n, cols)
    ensures IsMatrix(t.q, n, p.k) && IsMatrix(t.g, cols, p.k)
  {
    var g := PhaseA(p, n, cols, s.q);
    State(PhaseB(p, n, cols, g), g)
  }

  /** The state after m passes. */
  function Iterate(p: Problem, n: nat, cols: nat, s0: State, m: nat): State
    requires WellFormed(p, n, cols)
  {
    if m == 0 then s0 else Pass(p, n, cols, Iterate(p, n, cols, s0, m - 1))
  }

  /** The residuals `errAux` computed by the first m passes, in order. */
  function Residuals(p: Problem, n: nat, cols: nat, s0: State, m: nat): (errs: seq<real>)
    requires WellFormed(p, n, cols)
    ensures |errs| == m
  {
    if m == 0 then []
    else
      var s := Iterate(p, n, cols, s0, m);
      Residuals(p, n, cols, s0, m - 1) + [p.residual(p.x, s.q, s.g)]
  }

  /** The value of `err` when pass m runs its convergence test. */
  function Previous(errs: seq<real>, m: nat): real
    requires m < |errs|
  {
    if m == 0 then Sentinel else errs[m - 1]
  }

  /** `converg = (std::abs(errAux - err) < tolerance)` on pass m. */
  predicate ConvergedAt(errs: seq<real>, m: nat, tolerance: real)
    requires m < |errs|
  {
    Abs(errs[m] - Previous(errs, m)) < tolerance
  }

  /**
   * What `while (!converg && it < maxIteration)` leaves: `it` passes ran, the
   * last of them converged or `it` reached maxIteration (no pass at all when
   * maxIteration <= 0), no earlier pass converged, `err` holds the last
   * residual, and Q and G are the state after `it` passes.
   */
  ghost predicate Outcome(p: Problem, n: nat, cols: nat, s0: State, maxIteration: int, tolerance: real,
                          it: nat, err: real, converg: bool, errs: seq<real>, q: Mat, g: Mat)
    requires WellFormed(p, n, cols)
  {
    && it <= (if maxIteration < 0 then 0 else maxIteration)
    && (converg || it >= maxIteration)
    && errs == Residuals(p, n, cols, s0, it)
    && converg == (it > 0 && ConvergedAt(errs, it - 1, tolerance))
    && (forall m :: 0 <= m < it - 1 ==> !ConvergedAt(errs, m, tolerance))
    && err == (if it == 0 then Sentinel else errs[it - 1])
    && q == Iterate(p, n, cols, s0, it).q
    && g == Iterate(p, n, cols, s0, it).g
  }

  /** Phase A in place: the work-shared row loop writes every row of G, then ProjectG. */
  method UpdateLoadings(p: Problem, n: nat, cols: nat, q: array2<real>, g: array2<real>)
    requires WellFormed(p, n, cols)
    requires q.Length0 == n && q.Length1 == p.k && g.Length0 == cols && g.Length1 == p.k && q != g
    modifies g
    ensures Entries(g) == PhaseA(p, n, cols, Entries(q))
  {
    var qv := Entries(q);
    forall j, c | 0 <= j < cols && 0 <= c < p.k {
      g[j, c] := p.loadingSolve(qv, Col(p.x, cols, j), c);
    }
    MatrixExt(Entries(g), Loadings(p, n, cols, qv), cols, p.k);
    ProjectG(g, p.d);
  }

  /**
   * Phase B in place.  With `copyX` the per-row right-hand side is row i of
   * the precomputed `rx`; without, it is recomputed as `R.row(i) * X`.  Both
   * give the same new Q.
   */
  method UpdateMemberships(p: Problem, n: nat, cols: nat, rx: Mat, copyX: bool, q: array2<real>, g: array2<real>)
    requires WellFormed(p, n, cols)
    requires q.Length0 == n && q.Length1 == p.k && g.Length0 == cols && g.Length1 == p.k && q != g
    requires copyX ==> rx == MatMul(p.r, p.x, n, cols)
    modifies q
    ensures Entries(q) == PhaseB(p, n, cols, Entries(g))
  {
    var gv := Entries(g);
    var rq := seq(n, i requires 0 <= i < n =>
      seq(p.k, c requires 0 <= c < p.k =>
        p.ridgeSolve(gv, p.lambda * p.vps[i], if copyX then rx[i] else VecMat(p.r[i], p.x, cols), c)));
    assert rq == RidgeRows(p, n, cols, gv, MatMul(p.r, p.x, n, cols)) by {
      forall i | 0 <= i < n {
        RowOfProduct(p.r, p.x, n, cols, i);
      }
    }
    var qr := MatMul(Transpose(p.r, n), rq, n, p.k);
    forall i, c | 0 <= i < n && 0 <= c < p.k {
      q[i, c] := qr[i][c];
    }
    MatrixExt(Entries(q), qr, n, p.k);
    ProjectQ(q);
  }

  /** The main loop shared by both entry points; `copyX` selects how RX rows are obtained. */
  method MainLoop(p: Problem, n: nat, cols: nat, rx: Mat, copyX: bool, maxIteration: int, tolerance: real,
                  q: array2<real>, g: array2<real>)
    returns (it: nat, err: real, converg: bool, errs: seq<real>)
    requires WellFormed(p, n, cols)
    requires q.Length0 == n && q.Length1 == p.k && g.Length0 == cols && g.Length1 == p.k && q != g
    requires copyX ==> rx == MatMul(p.r, p.x, n, cols)
    modifies q, g
    ensures Outcome(p, n, cols, State(old(Entries(q)), old(Entries(g))), maxIteration, tolerance,
                    it, err, converg, errs, Entries(q), Entries(g))
  {
    ghost var s0 := State(Entries(q), Entries(g));
    err := Sentinel;
    it := 0;
    converg := false;
    errs := [];
    while !converg && it < maxIteration
      invariant it <= (if maxIteration < 0 then 0 else maxIteration)
      invariant errs == Residuals(p, n, cols, s0, it)
      invariant converg == (it > 0 && ConvergedAt(errs, it - 1, tolerance))
      invariant forall m :: 0 <= m < it - 1 ==> !ConvergedAt(errs, m, tolerance)
      invariant err == (if it == 0 then Sentinel else errs[it - 1])
      invariant Entries(q) == Iterate(p, n, cols, s0, it).q
      invariant Entries(g) == Iterate(p, n, cols, s0, it).g
      decreases maxIteration - it
    {
      UpdateLoadings(p, n, cols, q, g);
      UpdateMemberships(p, n, cols, rx, copyX, q, g);
      var errAux := p.residual(p.x, Entries(q), Entries(g));
      converg := Abs(errAux - err) < tolerance;
      forall m | 0 <= m < it ensures ConvergedAt(errs + [errAux], m, tolerance) == ConvergedAt(errs, m, tolerance) {
        ConvergedAtPrefix(errs, errAux, m, tolerance);
      }
      err := errAux;
      it := it + 1;
      errs := errs + [errAux];
    }
  }

  /** Appending a residual does not change the outcome of an earlier test. */
  lemma ConvergedAtPrefix(errs: seq<real>, e: real, m: nat, tolerance: real)
    requires m < |errs|
    ensures ConvergedAt(errs + [e], m, tolerance) == ConvergedAt(errs, m, tolerance)
  {
  }

  /** The dimensions and weight a solve needs: those the source relies on without checking. */
  ghost predicate SolveInputs(x: Mat, k: int, r: Mat, vps: seq<real>, lambdaPrim: real, d: int,
                              q: array2<real>, g: array2<real>)
    reads q, g
  {
    |x| > 0 && IsMatrix(x, |x|, |x[0]|) && IsMatrix(r, |x|, |x|) && |vps| == |x| && d != 0 &&
    k == q.Length1 == g.Length1 && q.Length0 == |x| && g.Length0 == |x[0]| && q != g &&
    Lambda(lambdaPrim, vps, d, |x[0]|, |x|, k).Finite?
  }

  /** The problem a solve sets up: lambda is derived once from lambdaPrim. */
  function MakeProblem(x: Mat, k: nat, r: Mat, vps: seq<real>, lambdaPrim: real, d: int,
                       loadingSolve: (Mat, seq<real>, nat) -> real,
                       ridgeSolve: (Mat, real, seq<real>, nat) -> real,
                       residual: (Mat, Mat, Mat) -> real): (p: Problem)
    requires |x| > 0 && |vps| > 0 && d != 0 && Lambda(lambdaPrim, vps, d, |x[0]|, |x|, k).Finite?
    ensures p.lambda == Lambda(lambdaPrim, vps, d, |x[0]|, |x|, k).value
    ensures p.x == x && p.r == r && p.vps == vps && p.d == d && p.k == k
  {
    Problem(x, r, vps, Lambda(lambdaPrim, vps, d, |x[0]|, |x|, k).value, d, k,
            loadingSolve, ridgeSolve, residual)
  }

  /** `ComputeMCPASolution`: RX = R * X is computed once before the loop (line 79). */
  method ComputeMCPASolution(x: Mat, k: int, r: Mat, vps: seq<real>, lambdaPrim: real, d: int,
                             maxIteration: int, tolerance: real, q: array2<real>, g: array2<real>,
                             loadingSolve: (Mat, seq<real>, nat) -> real,
                             ridgeSolve: (Mat, real, seq<real>, nat) -> real,
                             residual: (Mat, Mat, Mat) -> real)
    returns (it: nat, err: real, converg: bool, errs: seq<real>)
    requires SolveInputs(x, k, r, vps, lambdaPrim, d, q, g)
    modifies q, g
    ensures Outcome(MakeProblem(x, k, r, vps, lambdaPrim, d, loadingSolve, ridgeSolve, residual),
                    |x|, |x[0]|, State(old(Entries(q)), old(Entries(g))), maxIteration, tolerance,
                    it, err, converg, errs, Entries(q), Entries(g))
  {
    var p := MakeProblem(x, k, r, vps, lambdaPrim, d, loadingSolve, ridgeSolve, residual);
    var rx := MatMul(r, x, |x|, |x[0]|);
    it, err, converg, errs := MainLoop(p, |x|, |x[0]|, rx, true, maxIteration, tolerance, q, g);
  }

  /** `ComputeMCPASolutionNoCopyX`: no RX; each per-row solve recomputes `R.row(i) * X` (lines 230, 234). */
  method ComputeMCPASolutionNoCopyX(x: Mat, k: int, r: Mat, vps: seq<real>, lambdaPrim: real, d: int,
                                    maxIteration: int, tolerance: real, q: array2<real>, g: array2<real>,
                                    loadingSolve: (Mat, seq<real>, nat) -> real,
                                    ridgeSolve: (Mat, real, seq<real>, nat) -> real,
                                    residual: (Mat, Mat, Mat) -> real)
    returns (it: nat, err: real, converg: bool, errs: seq<real>)
    requires SolveInputs(x, k, r, vps, lambdaPrim, d, q, g)
    modifies q, g
    ensures Outcome(MakeProblem(x, k, r, vps, lambdaPrim, d, loadingSolve, ridgeSolve, residual),
                    |x|, |x[0]|, State(old(Entries(q)), old(Entries(g))), maxIteration, tolerance,
                    it, err, converg, errs, Entries(q), Entries(g))
  {
    var p := MakeProblem(x, k, r, vps, lambdaPrim, d, loadingSolve, ridgeSolve, residual);
    it, err, converg, errs := MainLoop(p, |x|, |x[0]|, [], false, maxIteration, tolerance, q, g);
  }

  /**
   * Against the sentinel -10, a non-negative first residual passes the test
   * exactly when it is below tolerance - 10; so with tolerance <= 10 the loop
   * never stops after one pass on convergence.
   */
  lemma FirstTest(errs: seq<real>, tolerance: real)
    requires |errs| > 0 && errs[0] >= 0.0
    ensures ConvergedAt(errs, 0, tolerance) <==> errs[0] + 10.0 < tolerance
    ensures tolerance <= 10.0 ==> !ConvergedAt(errs, 0, tolerance)
  {
  }

  /** The residuals of fewer passes are a prefix of those of more passes. */
  lemma {:induction false} ResidualsPrefix(p: Problem, n: nat, cols: nat, s0: State, a: nat, b: nat)
    requires WellFormed(p, n, cols) && a <= b
    ensures Residuals(p, n, cols, s0, b)[..a] == Residuals(p, n, cols, s0, a)
  {
    if a < b {
      ResidualsPrefix(p, n, cols, s0, a, b - 1);
      assert Residuals(p, n, cols, s0, b)[..b - 1] == Residuals(p, n, cols, s0, b - 1);
    } else {
      assert Residuals(p, n, cols, s0, b)[..a] == Residuals(p, n, cols, s0, b);
    }
  }

  /**
   * The loop's outcome is determined by the problem, the initial state and
   * the two stopping parameters; in particular the copying and the
   * non-copying solvers, which both establish it, return the same thing.
   */
  lemma OutcomeUnique(p: Problem, n: nat, cols: nat, s0: State, maxIteration: int, tolerance: real,
                      it1: nat, err1: real, converg1: bool, errs1: seq<real>, q1: Mat, g1: Mat,
                      it2: nat, err2: real, converg2: bool, errs2: seq<real>, q2: Mat, g2: Mat)
    requires WellFormed(p, n, cols)
    requires Outcome(p, n, cols, s0, maxIteration, tolerance, it1, err1, converg1, errs1, q1, g1)
    requires Outcome(p, n, cols, s0, maxIteration, tolerance, it2, err2, converg2, errs2, q2, g2)
    ensures it1 == it2 && err1 == err2 && converg1 == converg2 && errs1 == errs2 && q1 == q2 && g1 == g2
  {
    if it1 < it2 {
      EarlierStopImpossible(p, n, cols, s0, maxIteration, tolerance, it1, err1, converg1, errs1, q1, g1,
                            it2, err2, converg2, errs2, q2, g2);
    } else if it2 < it1 {
      EarlierStopImpossible(p, n, cols, s0, maxIteration, tolerance, it2, err2, converg2, errs2, q2, g2,
                            it1, err1, converg1, errs1, q1, g1);
    }
  }

  /** A run that stopped after it1 passes cannot coexist with one that went on past it1. */
  lemma EarlierStopImpossible(p: Problem, n: nat, cols: nat, s0: State, maxIteration: int, tolerance: real,
                              it1: nat, err1: real, converg1: bool, errs1: seq<real>, q1: Mat, g1: Mat,
                              it2: nat, err2: real, converg2: bool, errs2: seq<real>, q2: Mat, g2: Mat)
    requires WellFormed(p, n, cols)
    requires Outcome(p, n, cols, s0, maxIteration, tolerance, it1, err1, converg1, errs1, q1, g1)
    requires Outcome(p, n, cols, s0, maxIteration, tolerance, it2, err2, converg2, errs2, q2, g2)
    ensures it1 >= it2
  {
    if it1 < it2 {
      ResidualsPrefix(p, n, cols, s0, it1, it2);
      ConvergedAtOfPrefix(errs2, it1, it1 - 1, tolerance);
    }
  }

  /** A test on pass m sees only the first m + 1 residuals. */
  lemma ConvergedAtOfPrefix(errs: seq<real>, a: nat, m: nat, tolerance: real)
    requires m < a <= |errs|
    ensures ConvergedAt(errs[..a], m, tolerance) == ConvergedAt(errs, m, tolerance)
  {
  }

  /**
   * After any pass, Q's rows are strictly positive probability vectors (K >= 1)
   * and, for D >= 1, every block-column slice of G over its whole blocks is one.
   */
  lemma {:induction false} PassSimplex(p: Problem, n: nat, cols: nat, s0: State, m: nat)
    requires WellFormed(p, n, cols) && m >= 1
    ensures p.k >= 1 ==> forall i :: 0 <= i < n ==>
      Sum(Iterate(p, n, cols, s0, m).q[i]) == 1.0 && Positive(Iterate(p, n, cols, s0, m).q[i])
    ensures p.d > 0 ==> forall c, l :: 0 <= c < p.k && 0 <= l < BlockCount(cols, p.d) ==>
      BlockIsSimplex(Iterate(p, n, cols, s0, m).g, p.k, p.d, c, l)
  {
    var s := Iterate(p, n, cols, s0, m - 1);
    var g := PhaseA(p, n, cols, s.q);
    var rq := RidgeRows(p, n, cols, g, MatMul(p.r, p.x, n, cols));
    var qr := MatMul(Transpose(p.r, n), rq, n, p.k);
    assert Iterate(p, n, cols, s0, m) == State(ProjectRows(qr), g);
    if p.k >= 1 {
      ProjectRowsStochastic(qr, p.k);
    }
    if p.d > 0 {
      ProjectBlocksAllStochastic(Loadings(p, n, cols, s.q), p.k, p.d);
    }
  }

  /** What the solvers return after at least one pass satisfies the simplex constraints. */
  lemma OutcomeSimplex(p: Problem, n: nat, cols: nat, s0: State, maxIteration: int, tolerance: real,
                       it: nat, err: real, converg: bool, errs: seq<real>, q: Mat, g: Mat)
    requires WellFormed(p, n, cols)
    requires Outcome(p, n, cols, s0, maxIteration, tolerance, it, err, converg, errs, q, g)
    requires it >= 1
    ensures p.k >= 1 ==> forall i :: 0 <= i < n ==> Sum(q[i]) == 1.0 && Positive(q[i])
    ensures p.d > 0 ==> forall c, l :: 0 <= c < p.k && 0 <= l < BlockCount(cols, p.d) ==>
      BlockIsSimplex(g, p.k, p.d, c, l)
  {
    PassSimplex(p, n, cols, s0, it);
  }

  /** A positive maxIteration always runs a first pass; a non-positive one leaves Q and G untouched. */
  lemma OutcomeRuns(p: Problem, n: nat, cols: nat, s0: State, maxIteration: int, tolerance: real,
                    it: nat, err: real, converg: bool, errs: seq<real>, q: Mat, g: Mat)
    requires WellFormed(p, n, cols)
    requires Outcome(p, n, cols, s0, maxIteration, tolerance, it, err, converg, errs, q, g)
    ensures maxIteration > 0 ==> it >= 1
    ensures maxIteration <= 0 ==> it == 0 && !converg && err == Sentinel && q == s0.q && g == s0.g
  {
  }
}
