/** The design matrix of the direct linear transform for a camera
    (`getDesignMatrix_camera`) and the row-major layout of a 3 x 4
    projection matrix as a 12-vector. */
module Design {
  import opened LinAlg

  /** A 3 x 4 matrix, such as a projection matrix P. */
  predicate IsCamera(P: Matrix) {
    IsMatrix(P, 3, 4)
  }

  /** P written row by row as a 12-vector: `Flatten(P)[4 * r + c] == P[r][c]`. */
  function Flatten(P: Matrix): (v: Vector)
    requires IsCamera(P)
    ensures |v| == 12
    ensures forall r, c :: 0 <= r < 3 && 0 <= c < 4 ==> v[4 * r + c] == P[r][c]
  {
    P[0] + P[1] + P[2]
  }

  /** 2D image points (3 x N, rows x, y, w) and 3D object points (4 x M,
      M >= N, rows X, Y, Z, W) as `getDesignMatrix_camera` reads them. */
  predicate PointPairs(points2D: Matrix, points3D: Matrix) {
    IsRect(points2D) && |points2D| >= 3 &&
    IsRect(points3D) && |points3D| >= 4 && NumCols(points3D) >= NumCols(points2D)
  }

  /** The homogeneous image point `(x, y, w)` of pair `j`. */
  function ImagePoint(points2D: Matrix, j: nat): (u: Vector)
    requires IsRect(points2D) && |points2D| >= 3 && j < NumCols(points2D)
    ensures |u| == 3
  {
    [points2D[0][j], points2D[1][j], points2D[2][j]]
  }

  /** The homogeneous object point `X` of pair `j`. */
  function ObjectPoint(points3D: Matrix, j: nat): (X: Vector)
    requires IsRect(points3D) && |points3D| >= 4 && j < NumCols(points3D)
    ensures |X| == 4 && forall c :: 0 <= c < 4 ==> X[c] == points3D[c][j]
  {
    [points3D[0][j], points3D[1][j], points3D[2][j], points3D[3][j]]
  }

  /** First row of a pair: `[-w X^T, 0^T, x X^T]`. */
  function RowX(u: Vector, X: Vector): (row: Vector)
    requires |u| == 3 && |X| == 4
    ensures |row| == 12
    ensures forall k :: 0 <= k < 4 ==> row[k] == Mul(-u[2], X[k])
    ensures forall k :: 4 <= k < 8 ==> row[k] == 0.0
    ensures forall k :: 8 <= k < 12 ==> row[k] == Mul(u[0], X[k - 8])
  {
    Scale(-u[2], X) + Zeros(4) + Scale(u[0], X)
  }

  /** Second row of a pair: `[0^T, -w X^T, y X^T]`. */
  function RowY(u: Vector, X: Vector): (row: Vector)
    requires |u| == 3 && |X| == 4
    ensures |row| == 12
    ensures forall k :: 0 <= k < 4 ==> row[k] == 0.0
    ensures forall k :: 4 <= k < 8 ==> row[k] == Mul(-u[2], X[k - 4])
    ensures forall k :: 8 <= k < 12 ==> row[k] == Mul(u[1], X[k - 8])
  {
    Zeros(4) + Scale(-u[2], X) + Scale(u[1], X)
  }

  /** The 2N x 12 design matrix: pair `j` fills rows `2j` and `2j + 1`. */
  function DesignMatrix(points2D: Matrix, points3D: Matrix): (A: Matrix)
    requires PointPairs(points2D, points3D)
    ensures IsMatrix(A, 2 * NumCols(points2D), 12)
  {
    var n := NumCols(points2D);
    seq(2 * n, i requires 0 <= i < 2 * n => DesignRow(points2D, points3D, i))
  }

  /** Row `i` of the design matrix: the first or the second row of pair `i / 2`. */
  function DesignRow(points2D: Matrix, points3D: Matrix, i: nat): (row: Vector)
    requires PointPairs(points2D, points3D) && i < 2 * NumCols(points2D)
    ensures |row| == 12
  {
    var u, X := ImagePoint(points2D, i / 2), ObjectPoint(points3D, i / 2);
    if i % 2 == 0 then RowX(u, X) else RowY(u, X)
  }

  /** `getDesignMatrix_camera`: allocates the 2N x 12 matrix and fills it,
      two rows per point pair, with the row counter `i` stepped by 2. */
  method GetDesignMatrixCamera(points2D: Matrix, points3D: Matrix) returns (A: array2<real>)
    requires PointPairs(points2D, points3D)
    ensures fresh(A)
    ensures A.Length0 == 2 * NumCols(points2D) && A.Length1 == 12
    ensures Elements(A) == DesignMatrix(points2D, points3D)
  {
    var n := NumCols(points2D);
    A := new real[2 * n, 12];
    ghost var D := DesignMatrix(points2D, points3D);
    var i := 0;
    for j := 0 to n
      invariant i == 2 * j
      invariant forall r, k :: 0 <= r < i && 0 <= k < 12 ==> A[r, k] == D[r][k]
    {
      var u, X := ImagePoint(points2D, j), ObjectPoint(points3D, j);
      FillRowX(A, i, u, X);
      FillRowY(A, i + 1, u, X);
      PairRows(points2D, points3D, j);
      i := i + 2;
    }
    forall r | 0 <= r < 2 * n ensures Elements(A)[r] == D[r] {
      assert forall k :: 0 <= k < 12 ==> Elements(A)[r][k] == D[r][k];
    }
  }

  /** Row `i` of the loop body: `[-w X^T, 0^T, x X^T]`, written block by block. */
  method FillRowX(A: array2<real>, i: nat, u: Vector, X: Vector)
    requires |u| == 3 && |X| == 4
    requires i < A.Length0 && A.Length1 == 12
    modifies A
    ensures forall k :: 0 <= k < 12 ==> A[i, k] == RowX(u, X)[k]
    ensures forall r, k :: 0 <= r < A.Length0 && r != i && 0 <= k < 12 ==> A[r, k] == old(A[r, k])
  {
    FillBlock(A, i, 0, -u[2], X);
    ZeroBlock(A, i, 4);
    FillBlock(A, i, 8, u[0], X);
  }

  /** Row `i + 1` of the loop body: `[0^T, -w X^T, y X^T]`. */
  method FillRowY(A: array2<real>, i: nat, u: Vector, X: Vector)
    requires |u| == 3 && |X| == 4
    requires i < A.Length0 && A.Length1 == 12
    modifies A
    ensures forall k :: 0 <= k < 12 ==> A[i, k] == RowY(u, X)[k]
    ensures forall r, k :: 0 <= r < A.Length0 && r != i && 0 <= k < 12 ==> A[r, k] == old(A[r, k])
  {
    ZeroBlock(A, i, 0);
    FillBlock(A, i, 4, -u[2], X);
    FillBlock(A, i, 8, u[1], X);
  }

  /** Four consecutive writes `A[r, c0 + m] := s * X[m]`, as the source
      writes each block of a row, and nothing else. */
  method FillBlock(A: array2<real>, r: nat, c0: nat, s: real, X: Vector)
    requires |X| == 4 && r < A.Length0 && c0 + 4 <= A.Length1
    modifies A
    ensures forall k :: c0 <= k < c0 + 4 ==> A[r, k] == Mul(s, X[k - c0])
    ensures forall r', k :: 0 <= r' < A.Length0 && 0 <= k < A.Length1 && (r' != r || k < c0 || c0 + 4 <= k) ==>
      A[r', k] == old(A[r', k])
  {
    A[r, c0] := s * X[0];
    A[r, c0 + 1] := s * X[1];
    A[r, c0 + 2] := s * X[2];
    A[r, c0 + 3] := s * X[3];
  }

  /** Four consecutive writes `A[r, c0 + m] := 0.0`, and nothing else. */
  method ZeroBlock(A: array2<real>, r: nat, c0: nat)
    requires r < A.Length0 && c0 + 4 <= A.Length1
    modifies A
    ensures forall k :: c0 <= k < c0 + 4 ==> A[r, k] == 0.0
    ensures forall r', k :: 0 <= r' < A.Length0 && 0 <= k < A.Length1 && (r' != r || k < c0 || c0 + 4 <= k) ==>
      A[r', k] == old(A[r', k])
  {
    A[r, c0] := 0.0;
    A[r, c0 + 1] := 0.0;
    A[r, c0 + 2] := 0.0;
    A[r, c0 + 3] := 0.0;
  }

  /** Rows `2j` and `2j + 1` of the design matrix are the two rows of pair `j`. */
  lemma {:induction false} PairRows(points2D: Matrix, points3D: Matrix, j: nat)
    requires PointPairs(points2D, points3D) && j < NumCols(points2D)
    ensures DesignMatrix(points2D, points3D)[2 * j] == RowX(ImagePoint(points2D, j), ObjectPoint(points3D, j))
    ensures DesignMatrix(points2D, points3D)[2 * j + 1] == RowY(ImagePoint(points2D, j), ObjectPoint(points3D, j))
  {
    var D := DesignMatrix(points2D, points3D);
    assert D[2 * j] == DesignRow(points2D, points3D, 2 * j);
    assert D[2 * j + 1] == DesignRow(points2D, points3D, 2 * j + 1);
    PairIndex(j);
  }

  /** Rows `2j` and `2j + 1` both belong to pair `j`. */
  lemma PairIndex(j: nat)
    ensures (2 * j) / 2 == j && (2 * j) % 2 == 0
    ensures (2 * j + 1) / 2 == j && (2 * j + 1) % 2 == 1
  {
  }

  /** The layout of the rows of pair `j` in the point coordinates: row `2j`
      is `[-w X^T, 0^T, x X^T]` and row `2j + 1` is `[0^T, -w X^T, y X^T]`. */
  lemma DesignMatrixLayout(points2D: Matrix, points3D: Matrix, j: nat, c: nat)
    requires PointPairs(points2D, points3D) && j < NumCols(points2D) && c < 4
    ensures DesignMatrix(points2D, points3D)[2 * j][c] == Mul(-points2D[2][j], points3D[c][j])
    ensures DesignMatrix(points2D, points3D)[2 * j][4 + c] == 0.0
    ensures DesignMatrix(points2D, points3D)[2 * j][8 + c] == Mul(points2D[0][j], points3D[c][j])
    ensures DesignMatrix(points2D, points3D)[2 * j + 1][c] == 0.0
    ensures DesignMatrix(points2D, points3D)[2 * j + 1][4 + c] == Mul(-points2D[2][j], points3D[c][j])
    ensures DesignMatrix(points2D, points3D)[2 * j + 1][8 + c] == Mul(points2D[1][j], points3D[c][j])
  {
    PairRows(points2D, points3D, j);
    RowXEntries(points2D, points3D, j, c);
    RowYEntries(points2D, points3D, j, c);
  }

  /** The entries of row `2j` at offset `c` of each block. */
  lemma RowXEntries(points2D: Matrix, points3D: Matrix, j: nat, c: nat)
    requires PointPairs(points2D, points3D) && j < NumCols(points2D) && c < 4
    ensures RowX(ImagePoint(points2D, j), ObjectPoint(points3D, j))[c] == Mul(-points2D[2][j], points3D[c][j])
    ensures RowX(ImagePoint(points2D, j), ObjectPoint(points3D, j))[4 + c] == 0.0
    ensures RowX(ImagePoint(points2D, j), ObjectPoint(points3D, j))[8 + c] == Mul(points2D[0][j], points3D[c][j])
  {
    var u := ImagePoint(points2D, j);
    assert (8 + c) - 8 == c;
    assert u[0] == points2D[0][j] && u[2] == points2D[2][j];
  }

  /** The entries of row `2j + 1` at offset `c` of each block. */
  lemma RowYEntries(points2D: Matrix, points3D: Matrix, j: nat, c: nat)
    requires PointPairs(points2D, points3D) && j < NumCols(points2D) && c < 4
    ensures RowY(ImagePoint(points2D, j), ObjectPoint(points3D, j))[c] == 0.0
    ensures RowY(ImagePoint(points2D, j), ObjectPoint(points3D, j))[4 + c] == Mul(-points2D[2][j], points3D[c][j])
    ensures RowY(ImagePoint(points2D, j), ObjectPoint(points3D, j))[8 + c] == Mul(points2D[1][j], points3D[c][j])
  {
    var u := ImagePoint(points2D, j);
    assert (8 + c) - 8 == c && (4 + c) - 4 == c;
    assert u[1] == points2D[1][j] && u[2] == points2D[2][j];
  }

  /** Row `2j` and row `2j + 1` against the flattened P: each is
      `±(the w-row of P X) * (the x- or y-row of P X)` cancelled by its mirror. */
  lemma RowsAgainstFlatten(u: Vector, X: Vector, P: Matrix, factor: real)
    requires |u| == 3 && |X| == 4 && IsCamera(P)
    requires u == Scale(factor, MatVec(P, X))
    ensures Dot(RowX(u, X), Flatten(P)) == 0.0
    ensures Dot(RowY(u, X), Flatten(P)) == 0.0
  {
    var d0, d1, d2 := Dot(P[0], X), Dot(P[1], X), Dot(P[2], X);
    DotCommutes(P[0], X);
    DotCommutes(P[1], X);
    DotCommutes(P[2], X);

    DotAppend(Scale(-u[2], X) + Zeros(4), Scale(u[0], X), P[0] + P[1], P[2]);
    DotAppend(Scale(-u[2], X), Zeros(4), P[0], P[1]);
    DotScaleLeft(-u[2], X, P[0]);
    DotZerosLeft(P[1]);
    DotScaleLeft(u[0], X, P[2]);
    assert Dot(RowX(u, X), Flatten(P)) == Mul(-Mul(factor, d2), d0) + 0.0 + Mul(Mul(factor, d0), d2);
    Cancel(factor, d0, d2);

    DotAppend(Zeros(4) + Scale(-u[2], X), Scale(u[1], X), P[0] + P[1], P[2]);
    DotAppend(Zeros(4), Scale(-u[2], X), P[0], P[1]);
    DotZerosLeft(P[0]);
    DotScaleLeft(-u[2], X, P[1]);
    DotScaleLeft(u[1], X, P[2]);
    assert Dot(RowY(u, X), Flatten(P)) == 0.0 + Mul(-Mul(factor, d2), d1) + Mul(Mul(factor, d1), d2);
    Cancel(factor, d1, d2);
  }

  /** `-(factor b) a + (factor a) b == 0`. */
  lemma Cancel(factor: real, a: real, b: real)
    ensures Mul(-Mul(factor, b), a) + Mul(Mul(factor, a), b) == 0.0
  {
    MulNeg(Mul(factor, b), a);
    MulAssociates(factor, b, a);
    MulAssociates(factor, a, b);
    MulCommutes(a, b);
  }

  /** The algebraic core of the direct linear transform: when every image
      point is (up to a scale `factors[j]`) the projection `P X_j` of its object
      point, the design matrix maps P, flattened row by row, to zero. */
  lemma DesignMatrixAnnihilatesProjection(points2D: Matrix, points3D: Matrix, P: Matrix, factors: Vector)
    requires PointPairs(points2D, points3D) && IsCamera(P) && |factors| == NumCols(points2D)
    requires forall j :: 0 <= j < NumCols(points2D) ==>
      ImagePoint(points2D, j) == Scale(factors[j], MatVec(P, ObjectPoint(points3D, j)))
    ensures MatVec(DesignMatrix(points2D, points3D), Flatten(P)) == Zeros(2 * NumCols(points2D))
  {
    var A := DesignMatrix(points2D, points3D);
    forall i | 0 <= i < 2 * NumCols(points2D) ensures Dot(A[i], Flatten(P)) == 0.0 {
      var j := i / 2;
      RowsAgainstFlatten(ImagePoint(points2D, j), ObjectPoint(points3D, j), P, factors[j]);
    }
  }
}
