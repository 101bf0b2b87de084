/**
 * Dense real matrices as the solver sees them.  Entries are exact reals, so
 * floating-point rounding is outside the model.  A matrix value is a
 * sequence of rows; an in-place Eigen matrix is an `array2<real>`, and
 * `Entries` reads it back as a value.
 */
module Matrices {

  type Mat = seq<seq<real>>

  /** `m` has `rows` rows of `cols` entries each. */
  ghost predicate IsMatrix(m: Mat, rows: nat, cols: nat) {
    |m| == rows && forall i :: 0 <= i < |m| ==> |m[i]| == cols
  }

  /** Sum of a vector, accumulated left to right as the source's loops do. */
  function Sum(s: seq<real>): real {
    if |s| == 0 then 0.0 else Sum(s[..|s| - 1]) + s[|s| - 1]
  }

  /** Inner product of two vectors of equal length. */
  function Dot(u: seq<real>, v: seq<real>): real
    requires |u| == |v|
  {
    if |u| == 0 then 0.0 else Dot(u[..|u| - 1], v[..|v| - 1]) + u[|u| - 1] * v[|v| - 1]
  }

  /** Column `j` of a matrix with `cols` columns. */
  function Col(m: Mat, cols: nat, j: nat): (c: seq<real>)
    requires IsMatrix(m, |m|, cols) && j < cols
    ensures |c| == |m|
  {
    seq(|m|, i requires 0 <= i < |m| => m[i][j])
  }

  /** The transpose of a `|m|`-by-`cols` matrix. */
  function Transpose(m: Mat, cols: nat): (t: Mat)
    requires IsMatrix(m, |m|, cols)
    ensures IsMatrix(t, cols, |m|)
    ensures forall j, i :: 0 <= j < cols && 0 <= i < |m| ==> t[j][i] == m[i][j]
  {
    seq(cols, j requires 0 <= j < cols => Col(m, cols, j))
  }

  /** The product A * B, entry by entry as inner products of a row of A with a column of B. */
  function MatMul(a: Mat, b: Mat, inner: nat, cols: nat): (c: Mat)
    requires IsMatrix(a, |a|, inner) && IsMatrix(b, inner, cols)
    ensures IsMatrix(c, |a|, cols)
  {
    seq(|a|, i requires 0 <= i < |a| =>
      seq(cols, j requires 0 <= j < cols => Dot(a[i], Col(b, cols, j))))
  }

  function Zeros(n: nat): (z: seq<real>)
    ensures |z| == n && forall j :: 0 <= j < n ==> z[j] == 0.0
  {
    seq(n, j => 0.0)
  }

  /** u + c * v, entrywise. */
  function AddScaled(u: seq<real>, c: real, v: seq<real>): (w: seq<real>)
    requires |u| == |v|
    ensures |w| == |u|
  {
    seq(|u|, j requires 0 <= j < |u| => u[j] + c * v[j])
  }

  /**
   * The row vector v times the matrix B, computed independently of `MatMul`:
   * as the linear combination of B's rows weighted by v's entries.  This is
   * what the no-copy solver computes for `R.row(i) * X`.
   */
  function VecMat(v: seq<real>, b: Mat, cols: nat): (w: seq<real>)
    requires IsMatrix(b, |v|, cols)
    ensures |w| == cols
  {
    if |v| == 0 then Zeros(cols)
    else AddScaled(VecMat(v[..|v| - 1], b[..|v| - 1], cols), v[|v| - 1], b[|v| - 1])
  }

  /** Entry j of the linear combination of rows is the inner product with column j. */
  lemma {:induction false} VecMatEntry(v: seq<real>, b: Mat, cols: nat, j: nat)
    requires IsMatrix(b, |v|, cols) && j < cols
    ensures VecMat(v, b, cols)[j] == Dot(v, Col(b, cols, j))
  {
    if |v| > 0 {
      var n := |v| - 1;
      VecMatEntry(v[..n], b[..n], cols, j);
      assert Col(b[..n], cols, j) == Col(b, cols, j)[..n];
    }
  }

  /**
   * Row i of A * B is row i of A times B: the precomputed `RX = R * X`
   * and the recomputed `R.row(i) * X` give the same vector.
   */
  lemma RowOfProduct(a: Mat, b: Mat, inner: nat, cols: nat, i: nat)
    requires IsMatrix(a, |a|, inner) && IsMatrix(b, inner, cols) && i < |a|
    ensures MatMul(a, b, inner, cols)[i] == VecMat(a[i], b, cols)
  {
    forall j | 0 <= j < cols
      ensures MatMul(a, b, inner, cols)[i][j] == VecMat(a[i], b, cols)[j]
    {
      VecMatEntry(a[i], b, cols, j);
    }
  }

  /** The current contents of an in-place matrix, as a value. */
  function Entries(m: array2<real>): (v: Mat)
    reads m
    ensures IsMatrix(v, m.Length0, m.Length1)
    ensures forall i, j :: 0 <= i < m.Length0 && 0 <= j < m.Length1 ==> v[i][j] == m[i, j]
  {
    seq(m.Length0, i reads m requires 0 <= i < m.Length0 =>
      seq(m.Length1, j reads m requires 0 <= j < m.Length1 => m[i, j]))
  }

  /** Two matrix values of the same shape that agree entrywise are equal. */
  lemma MatrixExt(a: Mat, b: Mat, rows: nat, cols: nat)
    requires IsMatrix(a, rows, cols) && IsMatrix(b, rows, cols)
    requires forall i, j :: 0 <= i < rows && 0 <= j < cols ==> a[i][j] == b[i][j]
    ensures a == b
  {
    forall i | 0 <= i < rows ensures a[i] == b[i] {
      assert forall j :: 0 <= j < cols ==> a[i][j] == b[i][j];
    }
  }
}
