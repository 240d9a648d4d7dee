/** Dense real vectors and matrices as values, the small part of OpenCV's
    `cv::Mat` arithmetic that the calibration code relies on.  A matrix is a
    sequence of rows; a point set is a matrix with one point per column. */
module LinAlg {

  type Vector = seq<real>
  type Matrix = seq<seq<real>>

  /** `m` has exactly `rows` rows, each of length `cols`. */
  predicate IsMatrix(m: Matrix, rows: nat, cols: nat) {
    |m| == rows && forall i :: 0 <= i < |m| ==> |m[i]| == cols
  }

  /** Number of columns of a matrix (0 for a matrix without rows). */
  function NumCols(m: Matrix): nat {
    if |m| == 0 then 0 else |m[0]|
  }

  /** Every row has as many entries as the first one. */
  predicate IsRect(m: Matrix) {
    IsMatrix(m, |m|, NumCols(m))
  }

  function Abs(x: real): (r: real)
    ensures r >= 0.0 && (r == x || r == -x)
  {
    if x < 0.0 then -x else x
  }

  /** Sum of the entries, accumulated from the front like the source's loops. */
  function Sum(xs: Vector): real {
    if |xs| == 0 then 0.0 else Sum(xs[..|xs| - 1]) + xs[|xs| - 1]
  }

  /** The product of two reals.  Recursive definitions multiply through
      this function so that their unfoldings stay first-order terms. */
  function Mul(a: real, b: real): real {
    a * b
  }

  /** Inner product, accumulated from the front. */
  function Dot(u: Vector, v: Vector): real
    requires |u| == |v|
  {
    if |u| == 0 then 0.0 else Dot(u[..|u| - 1], v[..|v| - 1]) + Mul(u[|u| - 1], v[|v| - 1])
  }

  function Scale(k: real, v: Vector): (r: Vector)
    ensures |r| == |v| && forall i :: 0 <= i < |v| ==> r[i] == Mul(k, v[i])
  {
    seq(|v|, i requires 0 <= i < |v| => Mul(k, v[i]))
  }

  /** `(x - t) * k` for every entry `x`. */
  function Affine(xs: Vector, t: real, k: real): (r: Vector)
    ensures |r| == |xs| && forall i :: 0 <= i < |xs| ==> r[i] == Mul(xs[i] - t, k)
  {
    seq(|xs|, i requires 0 <= i < |xs| => Mul(xs[i] - t, k))
  }

  function Add(u: Vector, v: Vector): (r: Vector)
    requires |u| == |v|
    ensures |r| == |u| && forall i :: 0 <= i < |u| ==> r[i] == u[i] + v[i]
  {
    seq(|u|, i requires 0 <= i < |u| => u[i] + v[i])
  }

  function Zeros(n: nat): (r: Vector)
    ensures |r| == n && forall i :: 0 <= i < n ==> r[i] == 0.0
  {
    seq(n, i => 0.0)
  }

  /** Column `j` of `m`, i.e. the `j`-th point of a point set. */
  function Column(m: Matrix, j: nat): (r: Vector)
    requires forall i :: 0 <= i < |m| ==> j < |m[i]|
    ensures |r| == |m| && forall i :: 0 <= i < |m| ==> r[i] == m[i][j]
  {
    seq(|m|, i requires 0 <= i < |m| => m[i][j])
  }

  /** The `cols` x |m| transpose of a |m| x `cols` matrix. */
  function Transpose(m: Matrix, cols: nat): (r: Matrix)
    requires IsMatrix(m, |m|, cols)
    ensures IsMatrix(r, cols, |m|)
    ensures forall i, k :: 0 <= i < cols && 0 <= k < |m| ==> r[i][k] == m[k][i]
  {
    seq(cols, i requires 0 <= i < cols => Column(m, i))
  }

  /** Matrix times column vector. */
  function MatVec(m: Matrix, v: Vector): (r: Vector)
    requires IsMatrix(m, |m|, |v|)
    ensures |r| == |m| && forall i :: 0 <= i < |m| ==> r[i] == Dot(m[i], v)
  {
    seq(|m|, i requires 0 <= i < |m| => Dot(m[i], v))
  }

  /** Matrix product `a * b` (OpenCV's `operator*` on `cv::Mat`). */
  function MatMul(a: Matrix, b: Matrix): (r: Matrix)
    requires IsRect(b) && IsMatrix(a, |a|, |b|)
    ensures IsMatrix(r, |a|, NumCols(b))
    ensures forall i, j :: 0 <= i < |a| && 0 <= j < NumCols(b) ==> r[i][j] == Dot(a[i], Column(b, j))
  {
    seq(|a|, i requires 0 <= i < |a| =>
      seq(NumCols(b), j requires 0 <= j < NumCols(b) => Dot(a[i], Column(b, j))))
  }

  /** The n x n identity matrix. */
  function Identity(n: nat): (r: Matrix)
    ensures IsMatrix(r, n, n)
    ensures forall i, k :: 0 <= i < n && 0 <= k < n ==> r[i][k] == if i == k then 1.0 else 0.0
  {
    seq(n, i => seq(n, k => if i == k then 1.0 else 0.0))
  }

  /** The entries of a two-dimensional array, as a matrix value. */
  ghost function Elements(a: array2<real>): (m: Matrix)
    reads a
    ensures IsMatrix(m, a.Length0, a.Length1)
    ensures forall i, k :: 0 <= i < a.Length0 && 0 <= k < a.Length1 ==> m[i][k] == a[i, k]
  {
    seq(a.Length0, i reads a requires 0 <= i < a.Length0 =>
      seq(a.Length1, k reads a requires 0 <= k < a.Length1 => a[i, k]))
  }

  // ---------------------------------------------------------------------
  // Laws of multiplication, each in a context of its own

  lemma MulCommutes(a: real, b: real)
    ensures Mul(a, b) == Mul(b, a)
  {
  }

  lemma MulAssociates(a: real, b: real, c: real)
    ensures Mul(Mul(a, b), c) == Mul(a, Mul(b, c))
  {
  }

  lemma MulAddLeft(a: real, b: real, k: real)
    ensures Mul(a + b, k) == Mul(a, k) + Mul(b, k)
  {
  }

  lemma MulAddRight(k: real, a: real, b: real)
    ensures Mul(k, a + b) == Mul(k, a) + Mul(k, b)
  {
  }

  lemma MulZero(a: real)
    ensures Mul(0.0, a) == 0.0 && Mul(a, 0.0) == 0.0
  {
  }

  lemma MulOne(a: real)
    ensures Mul(1.0, a) == a && Mul(a, 1.0) == a
  {
  }

  lemma MulNeg(a: real, b: real)
    ensures Mul(-a, b) == -Mul(a, b)
  {
  }

  // ---------------------------------------------------------------------
  // Sums

  lemma {:induction false} SumScale(k: real, xs: Vector)
    ensures Sum(Scale(k, xs)) == Mul(k, Sum(xs))
  {
    if |xs| == 0 {
      MulZero(k);
    } else {
      var n := |xs|;
      forall i | 0 <= i < n - 1 ensures Scale(k, xs)[i] == Scale(k, xs[..n - 1])[i] {
        assert xs[..n - 1][i] == xs[i];
      }
      assert Scale(k, xs)[..n - 1] == Scale(k, xs[..n - 1]);
      SumScale(k, xs[..n - 1]);
      MulAddRight(k, Sum(xs[..n - 1]), xs[n - 1]);
    }
  }

  /** One more entry of a prefix sum. */
  lemma SumPrefixStep(xs: Vector, c: nat)
    requires c < |xs|
    ensures Sum(xs[..c + 1]) == Sum(xs[..c]) + xs[c]
  {
    assert xs[..c + 1][..c] == xs[..c];
  }

  /** The prefix of all entries is the whole sequence. */
  lemma SumWhole(xs: Vector)
    ensures Sum(xs[..|xs|]) == Sum(xs)
  {
    assert xs[..|xs|] == xs;
  }

  /** A sum of entries that are all non-negative is non-negative. */
  lemma {:induction false} SumNonNegative(xs: Vector)
    requires forall i :: 0 <= i < |xs| ==> xs[i] >= 0.0
    ensures Sum(xs) >= 0.0
  {
    if |xs| > 0 {
      SumNonNegative(xs[..|xs| - 1]);
    }
  }

  /** Summing `(x - t) * k` over `xs` gives `(Sum(xs) - |xs| * t) * k`. */
  lemma {:induction false} SumAffine(xs: Vector, t: real, k: real)
    ensures Sum(Affine(xs, t, k)) == Mul(Sum(xs) - Mul(|xs| as real, t), k)
  {
    var n := |xs|;
    if n == 0 {
      MulZero(t);
      MulZero(k);
    } else {
      var xs' := xs[..n - 1];
      var ys, ys' := Affine(xs, t, k), Affine(xs', t, k);
      forall i | 0 <= i < n - 1 ensures ys[..n - 1][i] == ys'[i] {
        assert xs'[i] == xs[i];
      }
      assert ys[..n - 1] == ys';
      SumAffine(xs', t, k);
      MulAddLeft(Sum(xs') - Mul((n - 1) as real, t), xs[n - 1] - t, k);
      MulAddLeft((n - 1) as real, 1.0, t);
      MulOne(t);
      assert Sum(xs') - Mul((n - 1) as real, t) + (xs[n - 1] - t) == Sum(xs) - Mul(n as real, t);
    }
  }

  // ---------------------------------------------------------------------
  // Inner products

  /** Splitting both operands at the same place splits the inner product. */
  lemma {:induction false} DotAppend(a: Vector, b: Vector, c: Vector, d: Vector)
    requires |a| == |c| && |b| == |d|
    ensures Dot(a + b, c + d) == Dot(a, c) + Dot(b, d)
  {
    if |b| > 0 {
      var n := |b|;
      assert (a + b)[..|a + b| - 1] == a + b[..n - 1];
      assert (c + d)[..|c + d| - 1] == c + d[..n - 1];
      DotAppend(a, b[..n - 1], c, d[..n - 1]);
    } else {
      assert a + b == a && c + d == c;
    }
  }

  /** Appending one entry to both operands adds its product. */
  lemma DotSnoc(u: Vector, v: Vector, a: real, b: real)
    requires |u| == |v|
    ensures Dot(u + [a], v + [b]) == Dot(u, v) + Mul(a, b)
  {
    assert (u + [a])[..|u|] == u && (v + [b])[..|v|] == v;
  }

  lemma {:induction false} DotCommutes(u: Vector, v: Vector)
    requires |u| == |v|
    ensures Dot(u, v) == Dot(v, u)
  {
    if |u| > 0 {
      DotCommutes(u[..|u| - 1], v[..|v| - 1]);
      MulCommutes(u[|u| - 1], v[|v| - 1]);
    }
  }

  lemma {:induction false} DotScaleLeft(k: real, u: Vector, v: Vector)
    requires |u| == |v|
    ensures Dot(Scale(k, u), v) == Mul(k, Dot(u, v))
  {
    var n := |u|;
    if n == 0 {
      MulZero(k);
    } else {
      forall i | 0 <= i < n - 1 ensures Scale(k, u)[i] == Scale(k, u[..n - 1])[i] {
        assert u[..n - 1][i] == u[i];
      }
      assert Scale(k, u)[..n - 1] == Scale(k, u[..n - 1]);
      DotScaleLeft(k, u[..n - 1], v[..n - 1]);
      MulAssociates(k, u[n - 1], v[n - 1]);
      MulAddRight(k, Dot(u[..n - 1], v[..n - 1]), Mul(u[n - 1], v[n - 1]));
    }
  }

  lemma {:induction false} DotAddLeft(u: Vector, v: Vector, w: Vector)
    requires |u| == |v| == |w|
    ensures Dot(Add(u, v), w) == Dot(u, w) + Dot(v, w)
  {
    var n := |u|;
    if n > 0 {
      assert Add(u, v)[..n - 1] == Add(u[..n - 1], v[..n - 1]);
      DotAddLeft(u[..n - 1], v[..n - 1], w[..n - 1]);
      MulAddLeft(u[n - 1], v[n - 1], w[n - 1]);
    }
  }

  lemma {:induction false} DotZerosLeft(v: Vector)
    ensures Dot(Zeros(|v|), v) == 0.0
  {
    if |v| > 0 {
      assert Zeros(|v|)[..|v| - 1] == Zeros(|v| - 1);
      DotZerosLeft(v[..|v| - 1]);
      MulZero(v[|v| - 1]);
    }
  }

  /** Inner product with a vector whose only non-zero entry is at `a`. */
  lemma {:induction false} DotOneEntry(u: Vector, v: Vector, a: nat)
    requires |u| == |v| && a < |u|
    requires forall k :: 0 <= k < |u| && k != a ==> u[k] == 0.0
    ensures Dot(u, v) == Mul(u[a], v[a])
  {
    var n := |u|;
    if a == n - 1 {
      assert u[..n - 1] == Zeros(n - 1);
      DotZerosLeft(v[..n - 1]);
    } else {
      DotOneEntry(u[..n - 1], v[..n - 1], a);
      MulZero(v[n - 1]);
    }
  }

  /** Inner product with a vector whose only non-zero entries are at `a` and `b`. */
  lemma {:induction false} DotTwoEntries(u: Vector, v: Vector, a: nat, b: nat)
    requires |u| == |v| && a < b < |u|
    requires forall k :: 0 <= k < |u| && k != a && k != b ==> u[k] == 0.0
    ensures Dot(u, v) == Mul(u[a], v[a]) + Mul(u[b], v[b])
  {
    var n := |u|;
    if b == n - 1 {
      DotOneEntry(u[..n - 1], v[..n - 1], a);
    } else {
      DotTwoEntries(u[..n - 1], v[..n - 1], a, b);
      MulZero(v[n - 1]);
    }
  }

  // ---------------------------------------------------------------------
  // Products of matrices and vectors

  /** `M^T l` split at the last row of M: the first rows' part plus the last
      row scaled by the last entry of `l`. */
  lemma TransposeMatVecStep(M: Matrix, cols: nat, l: Vector)
    requires IsMatrix(M, |M|, cols) && |l| == |M| > 0
    ensures MatVec(Transpose(M, cols), l) ==
      Add(MatVec(Transpose(M[..|M| - 1], cols), l[..|l| - 1]), Scale(l[|l| - 1], M[|M| - 1]))
  {
    var n := |M|;
    var M' := M[..n - 1];
    var lhs := MatVec(Transpose(M, cols), l);
    var rhs := Add(MatVec(Transpose(M', cols), l[..n - 1]), Scale(l[n - 1], M[n - 1]));
    forall k | 0 <= k < cols ensures lhs[k] == rhs[k] {
      assert Column(M, k)[..n - 1] == Column(M', k);
      MulCommutes(M[n - 1][k], l[n - 1]);
    }
  }

  /** `<M^T l, y> == <l, M y>`. */
  lemma {:induction false} MatVecAdjoint(M: Matrix, cols: nat, l: Vector, y: Vector)
    requires IsMatrix(M, |M|, cols) && |l| == |M| && |y| == cols
    ensures Dot(MatVec(Transpose(M, cols), l), y) == Dot(l, MatVec(M, y))
  {
    var n := |M|;
    if n == 0 {
      assert MatVec(Transpose(M, cols), l) == Zeros(cols);
      DotZerosLeft(y);
    } else {
      var M' := M[..n - 1];
      var u := MatVec(Transpose(M', cols), l[..n - 1]);
      TransposeMatVecStep(M, cols, l);
      DotAddLeft(u, Scale(l[n - 1], M[n - 1]), y);
      DotScaleLeft(l[n - 1], M[n - 1], y);
      MatVecAdjoint(M', cols, l[..n - 1], y);
      SplitLast(l);
      MatVecSplitLast(M, y);
      DotSnoc(l[..n - 1], MatVec(M', y), l[n - 1], Dot(M[n - 1], y));
    }
  }

  lemma SplitLast(l: Vector)
    requires |l| > 0
    ensures l == l[..|l| - 1] + [l[|l| - 1]]
  {
  }

  /** `M y` split at the last row of M. */
  lemma MatVecSplitLast(M: Matrix, y: Vector)
    requires IsMatrix(M, |M|, |y|) && |M| > 0
    ensures MatVec(M, y) == MatVec(M[..|M| - 1], y) + [Dot(M[|M| - 1], y)]
  {
    MatVecPrefix(M, y);
    SplitLast(MatVec(M, y));
  }

  lemma MatVecPrefix(M: Matrix, y: Vector)
    requires IsMatrix(M, |M|, |y|) && |M| > 0
    ensures MatVec(M, y)[..|M| - 1] == MatVec(M[..|M| - 1], y)
  {
    var n := |M|;
    forall i | 0 <= i < n - 1 ensures MatVec(M, y)[i] == MatVec(M[..n - 1], y)[i] {
      assert M[..n - 1][i] == M[i];
    }
  }

  /** `A (B x) == (A B) x`. */
  lemma MatVecMatMul(A: Matrix, B: Matrix, x: Vector)
    requires IsRect(B) && IsMatrix(A, |A|, |B|) && |x| == NumCols(B)
    ensures MatVec(A, MatVec(B, x)) == MatVec(MatMul(A, B), x)
  {
    var c := NumCols(B);
    var AB := MatMul(A, B);
    forall i | 0 <= i < |A| ensures Dot(A[i], MatVec(B, x)) == Dot(AB[i], x) {
      var row := MatVec(Transpose(B, c), A[i]);
      forall j | 0 <= j < c ensures AB[i][j] == row[j] {
        DotCommutes(A[i], Column(B, j));
      }
      assert AB[i] == row;
      MatVecAdjoint(B, c, A[i], x);
    }
  }

  lemma MatVecIdentity(x: Vector)
    ensures MatVec(Identity(|x|), x) == x
  {
    var I := Identity(|x|);
    forall i | 0 <= i < |x| ensures MatVec(I, x)[i] == x[i] {
      DotOneEntry(I[i], x, i);
      MulOne(x[i]);
    }
  }

  /** The identity matrix leaves every matrix unchanged: `I q == q`. */
  lemma MatMulIdentity(q: Matrix)
    requires IsRect(q)
    ensures MatMul(Identity(|q|), q) == q
  {
    var n := |q|;
    var I, iq := Identity(n), MatMul(Identity(|q|), q);
    forall i | 0 <= i < n ensures iq[i] == q[i] {
      forall j | 0 <= j < NumCols(q) ensures iq[i][j] == q[i][j] {
        DotOneEntry(I[i], Column(q, j), i);
      }
    }
  }
}
