// Dense vectors and matrices over the reals: the part of Eigen the network uses.
// A matrix is a sequence of rows; `rows x cols` shape is stated with IsMatrix.

module LinAlg {

  type Vector = seq<real>
  type Matrix = seq<Vector>

  /** m has `rows` rows, each of length `cols`. */
  predicate IsMatrix(m: Matrix, rows: nat, cols: nat) {
    |m| == rows && forall r :: 0 <= r < rows ==> |m[r]| == cols
  }

  /** a and b have the same number of rows and equally long rows. */
  predicate SameShape(a: Matrix, b: Matrix) {
    |a| == |b| && forall r :: 0 <= r < |a| ==> |a[r]| == |b[r]|
  }

  function Zeros(n: nat): (v: Vector)
    ensures |v| == n && forall i :: 0 <= i < n ==> v[i] == 0.0
  {
    seq(n, _ => 0.0)
  }

  function ZeroMatrix(rows: nat, cols: nat): (m: Matrix)
    ensures IsMatrix(m, rows, cols)
    ensures forall r :: 0 <= r < rows ==> m[r] == Zeros(cols)
  {
    seq(rows, _ => Zeros(cols))
  }

  /** Inner product, summed from the first entry to the last. The recursive step sits in
      `DotLast` so that the verifier unfolds one level of the sum at a time, which keeps
      proofs about products of matrices and vectors fast. */
  function Dot(u: Vector, v: Vector): real
    requires |u| == |v|
    decreases |u|, 1
  {
    if |u| == 0 then 0.0 else DotLast(u, v)
  }

  /** The inner product of a non-empty pair: the sum over all but the last entry, plus the
      product of the last entries. */
  function DotLast(u: Vector, v: Vector): real
    requires |u| == |v| && |u| > 0
    decreases |u|, 0
  {
    Dot(u[..|u| - 1], v[..|v| - 1]) + u[|u| - 1] * v[|v| - 1]
  }

  function Add(u: Vector, v: Vector): (w: Vector)
    requires |u| == |v|
    ensures |w| == |u| && forall i :: 0 <= i < |w| ==> w[i] == u[i] + v[i]
  {
    seq(|u|, i requires 0 <= i < |u| => u[i] + v[i])
  }

  function Sub(u: Vector, v: Vector): (w: Vector)
    requires |u| == |v|
    ensures |w| == |u| && forall i :: 0 <= i < |w| ==> w[i] == u[i] - v[i]
  {
    seq(|u|, i requires 0 <= i < |u| => u[i] - v[i])
  }

  function Scale(c: real, v: Vector): (w: Vector)
    ensures |w| == |v| && forall i :: 0 <= i < |w| ==> w[i] == c * v[i]
  {
    seq(|v|, i requires 0 <= i < |v| => c * v[i])
  }

  /** Elementwise (coefficient-wise) product. */
  function Hadamard(u: Vector, v: Vector): (w: Vector)
    requires |u| == |v|
    ensures |w| == |u| && forall i :: 0 <= i < |w| ==> w[i] == u[i] * v[i]
  {
    seq(|u|, i requires 0 <= i < |u| => u[i] * v[i])
  }

  /** The matrix-vector product m * v. */
  function MatVec(m: Matrix, v: Vector): (w: Vector)
    requires forall r :: 0 <= r < |m| ==> |m[r]| == |v|
    ensures |w| == |m| && forall r :: 0 <= r < |m| ==> w[r] == Dot(m[r], v)
  {
    seq(|m|, r requires 0 <= r < |m| => Dot(m[r], v))
  }

  function Column(m: Matrix, c: nat): (col: Vector)
    requires forall r :: 0 <= r < |m| ==> c < |m[r]|
    ensures |col| == |m| && forall r :: 0 <= r < |m| ==> col[r] == m[r][c]
  {
    seq(|m|, r requires 0 <= r < |m| => m[r][c])
  }

  /** The product of the transpose of a rows x cols matrix with a vector of length rows. */
  function MatTVec(m: Matrix, cols: nat, d: Vector): (w: Vector)
    requires IsMatrix(m, |d|, cols)
    ensures |w| == cols && forall c :: 0 <= c < cols ==> w[c] == Dot(Column(m, c), d)
  {
    seq(cols, c requires 0 <= c < cols => Dot(Column(m, c), d))
  }

  /** The outer product u * v^T. */
  function Outer(u: Vector, v: Vector): (m: Matrix)
    ensures IsMatrix(m, |u|, |v|)
    ensures forall r :: 0 <= r < |u| ==> m[r] == Scale(u[r], v)
  {
    seq(|u|, r requires 0 <= r < |u| => Scale(u[r], v))
  }

  function MatAdd(a: Matrix, b: Matrix): (m: Matrix)
    requires SameShape(a, b)
    ensures SameShape(m, a) && forall r :: 0 <= r < |m| ==> m[r] == Add(a[r], b[r])
  {
    seq(|a|, r requires 0 <= r < |a| => Add(a[r], b[r]))
  }

  function MatSub(a: Matrix, b: Matrix): (m: Matrix)
    requires SameShape(a, b)
    ensures SameShape(m, a) && forall r :: 0 <= r < |m| ==> m[r] == Sub(a[r], b[r])
  {
    seq(|a|, r requires 0 <= r < |a| => Sub(a[r], b[r]))
  }

  function MatScale(c: real, a: Matrix): (m: Matrix)
    ensures SameShape(m, a) && forall r :: 0 <= r < |m| ==> m[r] == Scale(c, a[r])
  {
    seq(|a|, r requires 0 <= r < |a| => Scale(c, a[r]))
  }

  /** Index of the first maximal entry: Eigen's maxCoeff(&index) scans in index order and
      keeps the first maximum it meets. */
  function ArgMax(v: Vector): (k: nat)
    requires |v| > 0
    ensures k < |v|
    ensures forall j :: 0 <= j < |v| ==> v[j] <= v[k]
    ensures forall j :: 0 <= j < k ==> v[j] < v[k]
    decreases |v|
  {
    if |v| == 1 then 0
    else
      var k := ArgMax(v[..|v| - 1]);
      if v[|v| - 1] > v[k] then |v| - 1 else k
  }

  // ---------------------------------------------------------------------------
  // Zero laws used by the training proofs.

  lemma {:induction false} DotZeroRight(u: Vector)
    ensures Dot(u, Zeros(|u|)) == 0.0
    decreases |u|
  {
    if |u| > 0 {
      assert Zeros(|u|)[..|u| - 1] == Zeros(|u| - 1);
      DotZeroRight(u[..|u| - 1]);
    }
  }

  lemma {:induction false} DotZeroLeft(v: Vector)
    ensures Dot(Zeros(|v|), v) == 0.0
    decreases |v|
  {
    if |v| > 0 {
      assert Zeros(|v|)[..|v| - 1] == Zeros(|v| - 1);
      DotZeroLeft(v[..|v| - 1]);
    }
  }

  lemma MatVecZeroMatrix(rows: nat, v: Vector)
    ensures MatVec(ZeroMatrix(rows, |v|), v) == Zeros(rows)
  {
    DotZeroLeft(v);
  }

  lemma MatTVecZero(m: Matrix, cols: nat)
    requires IsMatrix(m, |m|, cols)
    ensures MatTVec(m, cols, Zeros(|m|)) == Zeros(cols)
  {
    forall c | 0 <= c < cols
      ensures MatTVec(m, cols, Zeros(|m|))[c] == 0.0
    {
      DotZeroRight(Column(m, c));
    }
  }

  lemma SubSelf(v: Vector)
    ensures Sub(v, v) == Zeros(|v|)
  {
  }

  lemma HadamardZeroLeft(v: Vector)
    ensures Hadamard(Zeros(|v|), v) == Zeros(|v|)
  {
  }

  lemma AddZeroRight(v: Vector)
    ensures Add(v, Zeros(|v|)) == v
  {
  }

  lemma OuterZeroLeft(n: nat, v: Vector)
    ensures Outer(Zeros(n), v) == ZeroMatrix(n, |v|)
  {
    forall r | 0 <= r < n
      ensures Outer(Zeros(n), v)[r] == Zeros(|v|)
    {
    }
  }

  lemma MatAddZeroRight(a: Matrix, rows: nat, cols: nat)
    requires IsMatrix(a, rows, cols)
    ensures MatAdd(a, ZeroMatrix(rows, cols)) == a
  {
    forall r | 0 <= r < rows
      ensures MatAdd(a, ZeroMatrix(rows, cols))[r] == a[r]
    {
      AddZeroRight(a[r]);
    }
  }

  lemma MatSubScaledZero(a: Matrix, c: real, rows: nat, cols: nat)
    requires IsMatrix(a, rows, cols)
    ensures MatSub(a, MatScale(c, ZeroMatrix(rows, cols))) == a
  {
    forall r | 0 <= r < rows
      ensures MatSub(a, MatScale(c, ZeroMatrix(rows, cols)))[r] == a[r]
    {
    }
  }
}
