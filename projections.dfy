/**
 * The two constraint projections of the solver: `ProjectQ` makes every row
 * of the membership matrix a probability vector, `ProjectG` does the same
 * for every column of every block of D consecutive rows of the loading
 * matrix.  Both floor each entry at 1e-5 and then divide by the sum of the
 * floored entries.  The pure functions `ProjectRow`, `ProjectRows` and
 * `ProjectBlocks` say what the in-place methods compute.
 */
module Projections {
  import opened Matrices

  /** The numeric floor of the projections. */
  const Eps: real := 0.00001

  /** `std::max(1e-5, x)` */
  function Floor(x: real): (y: real)
    ensures y >= Eps && y >= x
    ensures y == x || y == Eps
  {
    if Eps < x then x else Eps
  }

  function Floored(s: seq<real>): (t: seq<real>)
    ensures |t| == |s|
    ensures forall j :: 0 <= j < |s| ==> t[j] == Floor(s[j])
  {
    seq(|s|, j requires 0 <= j < |s| => Floor(s[j]))
  }

  /** Every entry of `s` is at least the floor. */
  ghost predicate AtLeastEps(s: seq<real>) {
    forall j :: 0 <= j < |s| ==> s[j] >= Eps
  }

  ghost predicate Positive(s: seq<real>) {
    forall j :: 0 <= j < |s| ==> s[j] > 0.0
  }

  /** A vector of n entries, each at least the floor, sums to at least n * 1e-5. */
  lemma {:induction false} SumAtLeastEps(s: seq<real>)
    requires AtLeastEps(s)
    ensures Sum(s) >= |s| as real * Eps
  {
    if |s| > 0 {
      SumAtLeastEps(s[..|s| - 1]);
    }
  }

  /** The running sum of the floored entries, and its bound. */
  lemma FlooredSum(s: seq<real>)
    ensures Sum(Floored(s)) >= |s| as real * Eps
    ensures |s| > 0 ==> Sum(Floored(s)) > 0.0
  {
    SumAtLeastEps(Floored(s));
  }

  /** Dividing every entry by c divides the sum by c. */
  lemma {:induction false} SumDivided(t: seq<real>, c: real)
    requires c != 0.0
    ensures Sum(seq(|t|, j requires 0 <= j < |t| => t[j] / c)) == Sum(t) / c
  {
    var u := seq(|t|, j requires 0 <= j < |t| => t[j] / c);
    if |t| > 0 {
      var n := |t| - 1;
      SumDivided(t[..n], c);
      assert u[..n] == seq(n, j requires 0 <= j < n => t[..n][j] / c);
    }
  }

  /** One row (or one block-column slice) after flooring and normalising. */
  function ProjectRow(s: seq<real>): (r: seq<real>)
    ensures |r| == |s|
  {
    if |s| == 0 then []
    else
      var t := Floored(s);
      FlooredSum(s);
      var c := Sum(t);
      seq(|s|, j requires 0 <= j < |s| => t[j] / c)
  }

  /** Each entry of a projected row is max(1e-5, old) over the floored row sum, which is at least n * 1e-5. */
  lemma ProjectRowEntry(s: seq<real>, j: nat)
    requires j < |s|
    ensures Sum(Floored(s)) >= |s| as real * Eps > 0.0
    ensures ProjectRow(s)[j] == Floor(s[j]) / Sum(Floored(s))
  {
    FlooredSum(s);
  }

  /** A projected non-empty row sums to exactly 1. */
  lemma ProjectRowSumsToOne(s: seq<real>)
    requires |s| > 0
    ensures Sum(ProjectRow(s)) == 1.0
  {
    var t := Floored(s);
    FlooredSum(s);
    var c := Sum(t);
    var u := seq(|t|, j requires 0 <= j < |t| => t[j] / c);
    assert ProjectRow(s) == u;
    SumDivided(t, c);
    DivSelf(c);
  }

  lemma DivSelf(c: real)
    requires c != 0.0
    ensures c / c == 1.0
  {
  }

  /** Every entry of a projected row is strictly positive. */
  lemma ProjectRowPositive(s: seq<real>)
    ensures Positive(ProjectRow(s))
  {
    if |s| > 0 {
      FlooredSum(s);
    }
  }

  /** A row that already sums to 1 with every entry at least 1e-5 is left as it is. */
  lemma ProjectRowFixed(s: seq<real>)
    requires Sum(s) == 1.0 && AtLeastEps(s)
    ensures ProjectRow(s) == s
  {
    if |s| > 0 {
      assert Floored(s) == s;
      forall j | 0 <= j < |s| ensures ProjectRow(s)[j] == s[j] {
        ProjectRowEntry(s, j);
      }
    }
  }

  /** Projecting twice is projecting once when the first projection left no entry below the floor. */
  lemma ProjectRowTwice(s: seq<real>)
    requires |s| > 0 && AtLeastEps(ProjectRow(s))
    ensures ProjectRow(ProjectRow(s)) == ProjectRow(s)
  {
    ProjectRowSumsToOne(s);
    ProjectRowFixed(ProjectRow(s));
  }

  lemma SumOfTwo(s: seq<real>)
    requires |s| == 2
    ensures Sum(s) == s[0] + s[1]
  {
    var h := s[..1];
    assert h[..0] == [];
    assert Sum(h) == h[0];
  }

  /** The floor is not a lower bound after normalising: [1e-5, 100] becomes about [1e-7, 1]. */
  lemma BelowFloorAfterProjection()
    ensures ProjectRow([Eps, 100.0])[0] < Eps
  {
    var s := [Eps, 100.0];
    assert Floored(s) == s;
    SumOfTwo(s);
    ProjectRowEntry(s, 0);
  }

  /** Hence the projection is not idempotent: the second pass raises the sub-floor entry again. */
  lemma ProjectRowNotIdempotent()
    ensures ProjectRow(ProjectRow([Eps, 100.0])) != ProjectRow([Eps, 100.0])
  {
    var s := [Eps, 100.0];
    var p := ProjectRow(s);
    BelowFloorAfterProjection();
    ProjectRowSumsToOne(s);
    ProjectRowPositive(s);
    var t := Floored(p);
    assert t[0] == Eps;
    assert t[1] >= p[1];
    SumOfTwo(p);
    SumOfTwo(t);
    assert Sum(t) > 1.0;
    ProjectRowEntry(p, 1);
    assert ProjectRow(p)[1] < p[1];
  }

  // ---------------------------------------------------------------- rows

  /** ProjectQ's result: every row projected on its own. */
  function ProjectRows(m: Mat): (r: Mat)
    ensures |r| == |m| && forall i :: 0 <= i < |m| ==> |r[i]| == |m[i]|
  {
    seq(|m|, i requires 0 <= i < |m| => ProjectRow(m[i]))
  }

  /** After ProjectQ on a matrix with at least one column, every row is a strictly positive probability vector. */
  lemma ProjectRowsStochastic(m: Mat, cols: nat)
    requires IsMatrix(m, |m|, cols) && cols > 0
    ensures IsMatrix(ProjectRows(m), |m|, cols)
    ensures forall i :: 0 <= i < |m| ==> Sum(ProjectRows(m)[i]) == 1.0 && Positive(ProjectRows(m)[i])
  {
    forall i | 0 <= i < |m|
      ensures Sum(ProjectRows(m)[i]) == 1.0 && Positive(ProjectRows(m)[i])
    {
      ProjectRowSumsToOne(m[i]);
      ProjectRowPositive(m[i]);
    }
  }

  /**
   * The inner loop of ProjectQ: floors row i in place and returns the sum of
   * the floored entries; nothing else changes.
   */
  method FloorRow(q: array2<real>, i: nat) returns (rowSum: real)
    requires i < q.Length0
    modifies q
    ensures rowSum == Sum(Floored(old(Entries(q))[i]))
    ensures forall r, c :: 0 <= r < q.Length0 && 0 <= c < q.Length1 ==>
      q[r, c] == (if r == i then Floor(old(q[r, c])) else old(q[r, c]))
  {
    ghost var row := old(Entries(q))[i];
    rowSum := 0.0;
    var j := 0;
    while j < q.Length1
      invariant 0 <= j <= q.Length1
      invariant rowSum == Sum(Floored(row)[..j])
      invariant forall r, c :: 0 <= r < q.Length0 && 0 <= c < q.Length1 ==>
        q[r, c] == (if r == i && c < j then Floor(old(q[r, c])) else old(q[r, c]))
    {
      q[i, j] := Floor(q[i, j]);
      assert Floored(row)[..j + 1][..j] == Floored(row)[..j];
      rowSum := rowSum + q[i, j];
      j := j + 1;
    }
    assert Floored(row)[..j] == Floored(row);
  }

  /** One pass of ProjectQ's outer loop: row i is projected, nothing else changes. */
  method ProjectRowAt(q: array2<real>, i: nat)
    requires i < q.Length0
    modifies q
    ensures forall r, c :: 0 <= r < q.Length0 && 0 <= c < q.Length1 ==>
      q[r, c] == (if r == i then ProjectRow(old(Entries(q))[i])[c] else old(q[r, c]))
  {
    ghost var row := old(Entries(q))[i];
    var rowSum := FloorRow(q, i);
    if q.Length1 > 0 {
      FlooredSum(row);
    }
    forall c | 0 <= c < q.Length1 {
      q[i, c] := q[i, c] / rowSum;
    }
    forall c | 0 <= c < q.Length1 ensures q[i, c] == ProjectRow(row)[c] {
      ProjectRowEntry(row, c);
    }
  }

  /** Project Q into the constraint space, in place (src/solver.cpp ProjectQ). */
  method ProjectQ(q: array2<real>)
    modifies q
    ensures Entries(q) == ProjectRows(old(Entries(q)))
    ensures q.Length1 > 0 ==> forall i :: 0 <= i < q.Length0 ==>
      Sum(Entries(q)[i]) == 1.0 && Positive(Entries(q)[i])
  {
    ghost var m := old(Entries(q));
    var i := 0;
    while i < q.Length0
      invariant 0 <= i <= q.Length0
      invariant forall r, c :: 0 <= r < q.Length0 && 0 <= c < q.Length1 ==>
        q[r, c] == (if r < i then ProjectRow(m[r])[c] else m[r][c])
    {
      assert Entries(q)[i] == m[i] by {
        assert forall c :: 0 <= c < q.Length1 ==> Entries(q)[i][c] == m[i][c];
      }
      ProjectRowAt(q, i);
      i := i + 1;
    }
    MatrixExt(Entries(q), ProjectRows(m), q.Length0, q.Length1);
    if q.Length1 > 0 {
      ProjectRowsStochastic(m, q.Length1);
    }
  }

  // ---------------------------------------------------------------- blocks

  /** C++ `int` division, which truncates toward zero. */
  function CppDiv(a: int, b: int): (q: int)
    requires b != 0
  {
    var m := (if a < 0 then -a else a) / (if b < 0 then -b else b);
    if (a < 0) != (b < 0) then -m else m
  }

  /** For a non-negative dividend the truncated quotient is the Euclidean one when b > 0, and at most 0 when b < 0. */
  lemma CppDivOfNat(a: nat, b: int)
    requires b != 0
    ensures b > 0 ==> CppDiv(a, b) == a / b
    ensures b < 0 ==> CppDiv(a, b) <= 0
  {
  }

  /** `L = G.rows() / D`, the number of whole blocks. */
  function BlockCount(rows: nat, d: int): int
    requires d != 0
  {
    CppDiv(rows, d)
  }

  lemma MulMono(d: int, a: int, b: int)
    requires d > 0 && a <= b
    ensures d * a <= d * b
  {
    assert d * b - d * a == d * (b - a);
  }

  lemma MulSucc(d: int, l: int)
    ensures d * (l + 1) == d * l + d
  {
  }

  /** The rows D*l .. D*l + D - 1 of a block l < L lie below L*D, which is at most G.rows(). */
  lemma BlockIndexInBounds(rows: nat, d: int, l: int)
    requires d > 0 && 0 <= l < BlockCount(rows, d)
    ensures 0 <= d * l && d * l + d <= d * BlockCount(rows, d) <= rows
  {
    var L := BlockCount(rows, d);
    CppDivOfNat(rows, d);
    assert rows == d * L + rows % d;
    assert d * (l + 1) == d * l + d;
    MulMono(d, l + 1, L);
    MulMono(d, 0, l);
  }

  /** Row D*l + j, for j < D, is offset j of block l. */
  lemma BlockPosition(d: int, l: int, j: int)
    requires d > 0 && l >= 0 && 0 <= j < d
    ensures (d * l + j) / d == l && (d * l + j) % d == j
  {
    var r := d * l + j;
    var q, s := r / d, r % d;
    assert r == d * q + s && 0 <= s < d;
    if q < l {
      MulMono(d, q + 1, l);
    } else if q > l {
      MulMono(d, l + 1, q);
    }
  }

  /** Every row below L*D lies in block r / D at offset r % D. */
  lemma BlockOfRow(d: int, L: int, r: int)
    requires d > 0 && 0 <= r < d * L
    ensures 0 <= r / d < L && d * (r / d) + r % d == r && 0 <= r % d < d
    ensures d * (r / d) + d <= d * L
  {
    var q := r / d;
    assert d * q + r % d == r;
    if q >= L {
      MulMono(d, L, q);
    }
    MulMono(d, q + 1, L);
  }

  /** The loops of ProjectG visit each row below L*D exactly once per column: (l, j) -> D*l + j is one-to-one. */
  lemma BlockVisitedOnce(d: int, l1: int, j1: int, l2: int, j2: int)
    requires d > 0 && l1 >= 0 && l2 >= 0 && 0 <= j1 < d && 0 <= j2 < d
    requires d * l1 + j1 == d * l2 + j2
    ensures l1 == l2 && j1 == j2
  {
    BlockPosition(d, l1, j1);
    BlockPosition(d, l2, j2);
  }

  /** The `len` entries of column k starting at row `start`. */
  function BlockColumn(m: Mat, cols: nat, k: nat, start: nat, len: nat): (s: seq<real>)
    requires IsMatrix(m, |m|, cols) && k < cols && start + len <= |m|
    ensures |s| == len && forall j :: 0 <= j < len ==> s[j] == m[start + j][k]
  {
    seq(len, j requires 0 <= j < len => m[start + j][k])
  }

  /** Entry (i, k) of ProjectG's result for a row i inside a whole block. */
  function BlockEntry(m: Mat, cols: nat, d: int, i: nat, k: nat): real
    requires IsMatrix(m, |m|, cols) && k < cols && d > 0 && i < d * BlockCount(|m|, d)
  {
    BlockOfRow(d, BlockCount(|m|, d), i);
    BlockIndexInBounds(|m|, d, i / d);
    ProjectRow(BlockColumn(m, cols, k, d * (i / d), d))[i % d]
  }

  /** ProjectG's result: every block-column slice projected; rows from L*D on kept. */
  function ProjectBlocks(m: Mat, cols: nat, d: int): (r: Mat)
    requires IsMatrix(m, |m|, cols) && d != 0
    ensures IsMatrix(r, |m|, cols)
  {
    seq(|m|, i requires 0 <= i < |m| =>
      seq(cols, k requires 0 <= k < cols =>
        if d > 0 && i < d * BlockCount(|m|, d) then BlockEntry(m, cols, d, i, k) else m[i][k]))
  }

  /** Offset j of block l, column k, of ProjectG's result is the projection of the old slice at j. */
  lemma ProjectBlocksEntry(m: Mat, cols: nat, d: int, k: nat, l: nat, j: nat)
    requires IsMatrix(m, |m|, cols) && k < cols && d > 0 && l < BlockCount(|m|, d) && j < d
    ensures d * l + d <= |m|
    ensures ProjectBlocks(m, cols, d)[d * l + j][k] == ProjectRow(BlockColumn(m, cols, k, d * l, d))[j]
  {
    BlockIndexInBounds(|m|, d, l);
    BlockPosition(d, l, j);
  }

  /** Rows D*l .. D*l + D - 1 of column k of ProjectG's result hold the projection of the old slice. */
  lemma ProjectBlocksRange(m: Mat, cols: nat, d: int, k: nat, l: nat, start: nat)
    requires IsMatrix(m, |m|, cols) && k < cols && d > 0 && l < BlockCount(|m|, d) && start == d * l
    ensures start + d <= |m|
    ensures forall r :: start <= r < start + d ==>
      ProjectBlocks(m, cols, d)[r][k] == ProjectRow(BlockColumn(m, cols, k, start, d))[r - start]
  {
    BlockIndexInBounds(|m|, d, l);
    forall r | start <= r < start + d
      ensures ProjectBlocks(m, cols, d)[r][k] == ProjectRow(BlockColumn(m, cols, k, start, d))[r - start]
    {
      ProjectBlocksEntry(m, cols, d, k, l, r - start);
    }
  }

  /** The slice of block l, column k, of ProjectG's result is the projection of the old slice. */
  lemma ProjectBlocksSlice(m: Mat, cols: nat, d: int, k: nat, l: nat)
    requires IsMatrix(m, |m|, cols) && k < cols && d > 0 && l < BlockCount(|m|, d)
    ensures d * l + d <= |m|
    ensures BlockColumn(ProjectBlocks(m, cols, d), cols, k, d * l, d)
         == ProjectRow(BlockColumn(m, cols, k, d * l, d))
  {
    BlockIndexInBounds(|m|, d, l);
    forall j | 0 <= j < d
      ensures ProjectBlocks(m, cols, d)[d * l + j][k] == ProjectRow(BlockColumn(m, cols, k, d * l, d))[j]
    {
      ProjectBlocksEntry(m, cols, d, k, l, j);
    }
  }

  /** The D entries of column k in block l exist, are strictly positive and sum to 1. */
  ghost predicate BlockIsSimplex(m: Mat, cols: nat, d: int, k: nat, l: nat) {
    IsMatrix(m, |m|, cols) && k < cols && d > 0 && d * l + d <= |m| &&
    Sum(BlockColumn(m, cols, k, d * l, d)) == 1.0 && Positive(BlockColumn(m, cols, k, d * l, d))
  }

  /** After ProjectG with D >= 1, every block-column slice is a strictly positive probability vector. */
  lemma ProjectBlocksStochastic(m: Mat, cols: nat, d: int, k: nat, l: nat)
    requires IsMatrix(m, |m|, cols) && k < cols && d > 0 && l < BlockCount(|m|, d)
    ensures BlockIsSimplex(ProjectBlocks(m, cols, d), cols, d, k, l)
  {
    ProjectBlocksSlice(m, cols, d, k, l);
    ProjectRowSumsToOne(BlockColumn(m, cols, k, d * l, d));
    ProjectRowPositive(BlockColumn(m, cols, k, d * l, d));
  }

  /** The same for all columns and all whole blocks at once. */
  lemma ProjectBlocksAllStochastic(m: Mat, cols: nat, d: int)
    requires IsMatrix(m, |m|, cols) && d > 0
    ensures forall k, l :: 0 <= k < cols && 0 <= l < BlockCount(|m|, d) ==>
      BlockIsSimplex(ProjectBlocks(m, cols, d), cols, d, k, l)
  {
    forall k, l | 0 <= k < cols && 0 <= l < BlockCount(|m|, d)
      ensures BlockIsSimplex(ProjectBlocks(m, cols, d), cols, d, k, l)
    {
      ProjectBlocksStochastic(m, cols, d, k, l);
    }
  }

  /** Rows at index L*D or more (when D does not divide the row count), and every row when D < 0, are untouched. */
  lemma ProjectBlocksTail(m: Mat, cols: nat, d: int, i: nat, k: nat)
    requires IsMatrix(m, |m|, cols) && d != 0 && i < |m| && k < cols
    requires d < 0 || i >= d * BlockCount(|m|, d)
    ensures ProjectBlocks(m, cols, d)[i][k] == m[i][k]
  {
  }

  /** The D entries of column k in block l exist, sum to 1 and are each at least 1e-5. */
  ghost predicate BlockIsFixed(m: Mat, cols: nat, d: int, k: nat, l: nat) {
    IsMatrix(m, |m|, cols) && k < cols && d > 0 && d * l + d <= |m| &&
    Sum(BlockColumn(m, cols, k, d * l, d)) == 1.0 && AtLeastEps(BlockColumn(m, cols, k, d * l, d))
  }

  lemma FixedBlockEntry(m: Mat, cols: nat, d: int, k: nat, l: nat, j: nat)
    requires BlockIsFixed(m, cols, d, k, l) && l < BlockCount(|m|, d) && j < d
    ensures ProjectBlocks(m, cols, d)[d * l + j][k] == m[d * l + j][k]
  {
    var b := BlockColumn(m, cols, k, d * l, d);
    ProjectBlocksEntry(m, cols, d, k, l, j);
    ProjectRowFixed(b);
    assert ProjectRow(b)[j] == b[j] == m[d * l + j][k];
  }

  /** A row inside the whole blocks keeps its entry in column k when every block of that column is fixed. */
  lemma FixedRowEntry(m: Mat, cols: nat, d: int, i: nat, k: nat)
    requires IsMatrix(m, |m|, cols) && k < cols && d > 0 && i < d * BlockCount(|m|, d)
    requires forall l :: 0 <= l < BlockCount(|m|, d) ==> BlockIsFixed(m, cols, d, k, l)
    ensures i < |m| && ProjectBlocks(m, cols, d)[i][k] == m[i][k]
  {
    var L := BlockCount(|m|, d);
    BlockOfRow(d, L, i);
    BlockIndexInBounds(|m|, d, i / d);
    FixedBlockEntry(m, cols, d, k, i / d, i % d);
  }

  /** A matrix whose whole-block slices already sum to 1 with entries at least 1e-5 is a fixed point. */
  lemma ProjectBlocksFixed(m: Mat, cols: nat, d: int)
    requires IsMatrix(m, |m|, cols) && d > 0
    requires forall k, l :: 0 <= k < cols && 0 <= l < BlockCount(|m|, d) ==> BlockIsFixed(m, cols, d, k, l)
    ensures ProjectBlocks(m, cols, d) == m
  {
    var p := ProjectBlocks(m, cols, d);
    forall i, k | 0 <= i < |m| && 0 <= k < cols ensures p[i][k] == m[i][k] {
      if i < d * BlockCount(|m|, d) {
        FixedRowEntry(m, cols, d, i, k);
      }
    }
    MatrixExt(p, m, |m|, cols);
  }

  /**
   * The inner loop of ProjectG: floors the `len` entries of column k from row
   * `start` on and returns their sum; nothing else changes.
   */
  method FloorBlock(g: array2<real>, k: nat, start: nat, len: nat) returns (sum: real)
    requires k < g.Length1 && start + len <= g.Length0
    modifies g
    ensures sum == Sum(Floored(BlockColumn(old(Entries(g)), g.Length1, k, start, len)))
    ensures forall r, c :: 0 <= r < g.Length0 && 0 <= c < g.Length1 ==>
      g[r, c] == (if c == k && start <= r < start + len then Floor(old(g[r, c])) else old(g[r, c]))
  {
    ghost var slice := BlockColumn(old(Entries(g)), g.Length1, k, start, len);
    sum := 0.0;
    var j := 0;
    while j < len
      invariant 0 <= j <= len
      invariant sum == Sum(Floored(slice)[..j])
      invariant forall r, c :: 0 <= r < g.Length0 && 0 <= c < g.Length1 ==>
        g[r, c] == (if c == k && start <= r < start + j then Floor(old(g[r, c])) else old(g[r, c]))
    {
      g[start + j, k] := Floor(g[start + j, k]);
      assert Floored(slice)[..j + 1][..j] == Floored(slice)[..j];
      sum := sum + g[start + j, k];
      j := j + 1;
    }
    assert Floored(slice)[..j] == Floored(slice);
  }

  /** One pass of ProjectG's middle loop: the `len` entries of column k from row `start` on are projected, nothing else changes. */
  method ProjectBlockAt(g: array2<real>, k: nat, start: nat, len: nat)
    requires k < g.Length1 && start + len <= g.Length0
    modifies g
    ensures forall r, c :: 0 <= r < g.Length0 && 0 <= c < g.Length1 ==>
      g[r, c] == (if c == k && start <= r < start + len
                  then ProjectRow(BlockColumn(old(Entries(g)), g.Length1, k, start, len))[r - start]
                  else old(g[r, c]))
  {
    ghost var slice := BlockColumn(old(Entries(g)), g.Length1, k, start, len);
    var sum := FloorBlock(g, k, start, len);
    if len > 0 {
      FlooredSum(slice);
    }
    forall r | start <= r < start + len {
      g[r, k] := g[r, k] / sum;
    }
    forall r | start <= r < start + len ensures g[r, k] == ProjectRow(slice)[r - start] {
      ProjectRowEntry(slice, r - start);
    }
  }

  /** One pass of ProjectG's outer loop: every whole block of column k is projected, nothing else changes. */
  method ProjectColumn(g: array2<real>, d: int, k: nat, ghost m: Mat)
    requires d != 0 && k < g.Length1
    requires IsMatrix(m, g.Length0, g.Length1) && forall r :: 0 <= r < g.Length0 ==> g[r, k] == m[r][k]
    modifies g
    ensures forall r, c :: 0 <= r < g.Length0 && 0 <= c < g.Length1 ==>
      g[r, c] == (if c == k then ProjectBlocks(m, g.Length1, d)[r][c] else old(g[r, c]))
  {
    ghost var t := ProjectBlocks(m, g.Length1, d);
    var L := CppDiv(g.Length0, d);
    CppDivOfNat(g.Length0, d);
    var l, start := 0, 0;
    while l < L
      invariant 0 <= l && (L >= 0 ==> l <= L) && start == d * l
      invariant forall r, c :: 0 <= r < g.Length0 && 0 <= c < g.Length1 ==>
        g[r, c] == (if c == k && r < start then t[r][c] else if c == k then m[r][c] else old(g[r, c]))
    {
      BlockIndexInBounds(g.Length0, d, l);
      MulSucc(d, l);
      assert BlockColumn(Entries(g), g.Length1, k, start, d) == BlockColumn(m, g.Length1, k, start, d) by {
        forall r | start <= r < start + d ensures Entries(g)[r][k] == m[r][k] { }
      }
      ProjectBlockAt(g, k, start, d);
      ProjectBlocksRange(m, g.Length1, d, k, l, start);
      l, start := l + 1, start + d;
    }
    forall r | 0 <= r < g.Length0 ensures g[r, k] == t[r][k] {
      if d < 0 || r >= start {
        ProjectBlocksTail(m, g.Length1, d, r, k);
      }
    }
  }

  /** Project G into the constraint space, in place (src/solver.cpp ProjectG). */
  method ProjectG(g: array2<real>, d: int)
    requires d != 0
    modifies g
    ensures Entries(g) == ProjectBlocks(old(Entries(g)), g.Length1, d)
    ensures d > 0 ==> forall k, l :: 0 <= k < g.Length1 && 0 <= l < BlockCount(g.Length0, d) ==>
      BlockIsSimplex(Entries(g), g.Length1, d, k, l)
  {
    ghost var m := old(Entries(g));
    ghost var t := ProjectBlocks(m, g.Length1, d);
    var k := 0;
    while k < g.Length1
      invariant 0 <= k <= g.Length1
      invariant forall r, c :: 0 <= r < g.Length0 && 0 <= c < g.Length1 ==>
        g[r, c] == (if c < k then t[r][c] else m[r][c])
    {
      ProjectColumn(g, d, k, m);
      k := k + 1;
    }
    MatrixExt(Entries(g), t, g.Length0, g.Length1);
    if d > 0 {
      ProjectBlocksAllStochastic(m, g.Length1, d);
    }
  }
}
