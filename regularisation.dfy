/**
 * The effective regularisation weight of one solve, derived once from the
 * user's lambda', the Laplacian's eigenvalues and the problem dimensions
 * (src/solver.cpp lines 83-87 and 175-179).
 */
module Regularisation {
  import opened Projections

  /** `vps.maxCoeff()`: the largest eigenvalue. Eigen requires a non-empty vector. */
  function MaxCoeff(v: seq<real>): (r: real)
    requires |v| > 0
    ensures forall i :: 0 <= i < |v| ==> v[i] <= r
    ensures exists i :: 0 <= i < |v| && v[i] == r
  {
    if |v| == 1 then v[0]
    else
      var m := MaxCoeff(v[..|v| - 1]);
      assert forall i :: 0 <= i < |v| - 1 ==> v[..|v| - 1][i] == v[i];
      if v[|v| - 1] > m then v[|v| - 1] else m
  }

  /**
   * A double that the formula can produce: a real number, or the infinity or
   * NaN of a division by zero.
   */
  datatype Weight = Finite(value: real) | NonFinite

  /**
   * `lambda = 0` when the largest eigenvalue is 0, and otherwise
   * `lambdaPrim * (D * L * n) / (K * n * vpMax)` with `L = X.cols() / D` in C++
   * integer division.  The products `D * L * n` and `K * n` are `int`s.
   */
  function Lambda(lambdaPrim: real, vps: seq<real>, d: int, cols: nat, n: int, k: int): (w: Weight)
    requires |vps| > 0 && d != 0
  {
    var vpMax := MaxCoeff(vps);
    if vpMax == 0.0 then Finite(0.0)
    else if k * n == 0 then NonFinite
    else Finite(Formula(lambdaPrim, d * BlockCount(cols, d), n, k, vpMax))
  }

  /** `lambdaPrim * (dl * n) / (K * n * vpMax)`, with `dl * n` and `K * n` computed in `int`. */
  function Formula(lambdaPrim: real, dl: int, n: int, k: int, vpMax: real): real
    requires k * n != 0 && vpMax != 0.0
  {
    lambdaPrim * ((dl * n) as real) / ((k * n) as real * vpMax)
  }

  /** `lambdaPrim * dl / (K * vpMax)`: the formula once n has cancelled. */
  function Normalised(lambdaPrim: real, dl: int, k: int, vpMax: real): real
    requires k != 0 && vpMax != 0.0
  {
    lambdaPrim * dl as real / (k as real * vpMax)
  }

  /** The factor n cancels from the formula. */
  lemma FormulaCancels(lambdaPrim: real, dl: int, n: int, k: int, vpMax: real)
    requires k > 0 && n > 0 && vpMax != 0.0
    ensures k * n != 0
    ensures Formula(lambdaPrim, dl, n, k, vpMax) == Normalised(lambdaPrim, dl, k, vpMax)
  {
    assert k * n != 0 by {
      assert k * n >= k;
    }
    CastProduct(dl, n);
    CastProduct(k, n);
    CancelFactor(lambdaPrim, dl as real, n as real, k as real, vpMax);
  }

  /** D * L are the columns covered by whole blocks: between cols - |D| + 1 and cols, whatever the sign of D. */
  lemma WholeBlockColumns(cols: nat, d: int)
    requires d != 0
    ensures 0 <= d * BlockCount(cols, d) <= cols
    ensures cols - d * BlockCount(cols, d) < (if d < 0 then -d else d)
    ensures cols % (if d < 0 then -d else d) == 0 ==> d * BlockCount(cols, d) == cols
  {
    var a := if d < 0 then -d else d;
    var q := cols / a;
    assert cols == a * q + cols % a;
    assert q >= 0;
    if d < 0 {
      assert BlockCount(cols, d) == -q;
      assert d * -q == a * q;
    } else {
      assert BlockCount(cols, d) == q;
    }
  }

  /** The weight is 0 on a flat spectrum, whatever the other inputs. */
  lemma LambdaFlatSpectrum(lambdaPrim: real, vps: seq<real>, d: int, cols: nat, n: int, k: int)
    requires |vps| > 0 && d != 0 && MaxCoeff(vps) == 0.0
    ensures Lambda(lambdaPrim, vps, d, cols, n, k) == Finite(0.0)
  {
  }

  /** The formula divides by zero, and only then, when the spectrum is not flat and K * n == 0. */
  lemma LambdaNonFinite(lambdaPrim: real, vps: seq<real>, d: int, cols: nat, n: int, k: int)
    requires |vps| > 0 && d != 0
    ensures Lambda(lambdaPrim, vps, d, cols, n, k).NonFinite? <==> MaxCoeff(vps) != 0.0 && (k == 0 || n == 0)
  {
    if k * n == 0 {
      assert k == 0 || n == 0;
    } else {
      assert k != 0 && n != 0;
    }
  }

  /** The real-number identity behind the cancellation of n. */
  lemma CancelFactor(a: real, p: real, nr: real, kr: real, v: real)
    requires nr != 0.0 && kr != 0.0 && v != 0.0
    ensures a * (p * nr) / ((kr * nr) * v) == a * p / (kr * v)
  {
    assert a * (p * nr) == (a * p) * nr;
    assert (kr * nr) * v == (kr * v) * nr;
    assert kr * v != 0.0;
    assert ((a * p) * nr) / ((kr * v) * nr) == (a * p) / (kr * v);
  }

  /** The normalised weight is non-negative for non-negative lambdaPrim and D*L with positive K and vpMax. */
  lemma NonNegativeQuotient(a: real, dl: int, k: int, v: real)
    requires a >= 0.0 && dl >= 0 && k > 0 && v > 0.0
    ensures Normalised(a, dl, k, v) >= 0.0
  {
    assert a * dl as real >= 0.0;
    assert k as real * v > 0.0;
  }

  /** When D*L equals the column count the weight is lambdaPrim * cols / (K * vpMax). */
  lemma SubstituteColumns(a: real, dl: int, cols: int, k: int, v: real)
    requires dl == cols && k != 0 && v != 0.0
    ensures Normalised(a, dl, k, v) == a * cols as real / (k as real * v)
  {
  }

  lemma CastProduct(a: int, b: int)
    ensures (a * b) as real == a as real * b as real
  {
  }

  /**
   * On a non-flat spectrum with K > 0 and n > 0 the factor n cancels:
   * lambda = lambdaPrim * (D * L) / (K * vpMax).
   */
  lemma LambdaNormalised(lambdaPrim: real, vps: seq<real>, d: int, cols: nat, n: int, k: int)
    requires |vps| > 0 && d != 0 && MaxCoeff(vps) != 0.0 && k > 0 && n > 0
    ensures Lambda(lambdaPrim, vps, d, cols, n, k).Finite?
    ensures Lambda(lambdaPrim, vps, d, cols, n, k).value == Normalised(lambdaPrim, d * BlockCount(cols, d), k, MaxCoeff(vps))
  {
    var dl, vpMax := d * BlockCount(cols, d), MaxCoeff(vps);
    FormulaCancels(lambdaPrim, dl, n, k, vpMax);
    assert Lambda(lambdaPrim, vps, d, cols, n, k) == Finite(Formula(lambdaPrim, dl, n, k, vpMax));
  }

  /**
   * With lambdaPrim >= 0, a positive largest eigenvalue, K > 0 and n > 0 the
   * weight is a non-negative number, and lambdaPrim * cols / (K * vpMax) when D
   * divides the column count.
   */
  lemma LambdaNonNegative(lambdaPrim: real, vps: seq<real>, d: int, cols: nat, n: int, k: int)
    requires |vps| > 0 && d != 0 && MaxCoeff(vps) > 0.0 && k > 0 && n > 0 && lambdaPrim >= 0.0
    ensures Lambda(lambdaPrim, vps, d, cols, n, k).Finite?
    ensures Lambda(lambdaPrim, vps, d, cols, n, k).value >= 0.0
    ensures cols % (if d < 0 then -d else d) == 0 ==>
      Lambda(lambdaPrim, vps, d, cols, n, k).value == lambdaPrim * cols as real / (k as real * MaxCoeff(vps))
  {
    var dl, vpMax := d * BlockCount(cols, d), MaxCoeff(vps);
    LambdaNormalised(lambdaPrim, vps, d, cols, n, k);
    var v := Lambda(lambdaPrim, vps, d, cols, n, k).value;
    assert v == Normalised(lambdaPrim, dl, k, vpMax);
    WholeBlockColumns(cols, d);
    NonNegativeQuotient(lambdaPrim, dl, k, vpMax);
    if cols % (if d < 0 then -d else d) == 0 {
      SubstituteColumns(lambdaPrim, dl, cols, k, vpMax);
    }
  }
}
