/** `applyH`: a homogeneous transformation applied to a set of geometric
    objects, one object per column. */
module Transform {
  import opened LinAlg

  datatype Result<T> = Ok(value: T) | Err(msg: string)

  /** The enumerators of `GeometryType`, with the values C++ gives them. */
  const GeomTypePoint: int := 0
  const GeomTypeLine: int := 1

  /** `applyH(geomObj, H, type)`.  Points are mapped by `H`, lines by the
      transposed inverse of `H`; the inverse is OpenCV's, so it is the input
      `invH` here.  Any other type code is the `runtime_error("Unhandled
      case!")` of the default branch. */
  function ApplyH(geomObj: Matrix, H: Matrix, invH: Matrix, kind: int): (r: Result<Matrix>)
    requires IsRect(geomObj)
    requires kind == GeomTypePoint ==> IsMatrix(H, |H|, |geomObj|)
    requires kind == GeomTypeLine ==> IsMatrix(invH, |geomObj|, |geomObj|)
    ensures r.Ok? <==> kind == GeomTypePoint || kind == GeomTypeLine
    ensures !r.Ok? ==> r == Err("Unhandled case!")
    ensures r.Ok? ==> IsMatrix(r.value, if kind == GeomTypePoint then |H| else |geomObj|, NumCols(geomObj))
  {
    if kind == GeomTypePoint then Ok(MatMul(H, geomObj))
    else if kind == GeomTypeLine then Ok(MatMul(Transpose(invH, |geomObj|), geomObj))
    else Err("Unhandled case!")
  }

  /** A point set is mapped point by point: column `j` of the result is H
      times column `j` of the input. */
  lemma PointColumns(geomObj: Matrix, H: Matrix, invH: Matrix, j: nat)
    requires IsRect(geomObj) && IsMatrix(H, |H|, |geomObj|) && j < NumCols(geomObj)
    ensures ApplyH(geomObj, H, invH, GeomTypePoint).Ok?
    ensures Column(ApplyH(geomObj, H, invH, GeomTypePoint).value, j) == MatVec(H, Column(geomObj, j))
  {
    var q := ApplyH(geomObj, H, invH, GeomTypePoint).value;
    forall i | 0 <= i < |H| ensures Column(q, j)[i] == MatVec(H, Column(geomObj, j))[i] {
      assert q[i][j] == Dot(H[i], Column(geomObj, j));
    }
  }

  /** A line set is mapped line by line: column `j` of the result is the
      transpose of `invH` times column `j` of the input. */
  lemma LineColumns(geomObj: Matrix, H: Matrix, invH: Matrix, j: nat)
    requires IsRect(geomObj) && IsMatrix(invH, |geomObj|, |geomObj|) && j < NumCols(geomObj)
    ensures ApplyH(geomObj, H, invH, GeomTypeLine).Ok?
    ensures Column(ApplyH(geomObj, H, invH, GeomTypeLine).value, j) ==
      MatVec(Transpose(invH, |geomObj|), Column(geomObj, j))
  {
    var T := Transpose(invH, |geomObj|);
    var q := ApplyH(geomObj, H, invH, GeomTypeLine).value;
    forall i | 0 <= i < |geomObj| ensures Column(q, j)[i] == MatVec(T, Column(geomObj, j))[i] {
      assert q[i][j] == Dot(T[i], Column(geomObj, j));
    }
  }

  /** The identity transformation leaves every point where it is. */
  lemma IdentityFixesPoints(geomObj: Matrix, invH: Matrix)
    requires IsRect(geomObj)
    ensures ApplyH(geomObj, Identity(|geomObj|), invH, GeomTypePoint) == Ok(geomObj)
  {
    MatMulIdentity(geomObj);
  }

  /** With `invH` the inverse of a square H, the transformed line `j` meets
      the transformed point `k` exactly as the original line meets the
      original point: `<H^-T l, H x> == <l, x>`.  In particular incidence
      (`<l, x> == 0`) is preserved in both directions. */
  lemma IncidencePreserved(lines: Matrix, points: Matrix, H: Matrix, invH: Matrix, j: nat, k: nat)
    requires IsRect(lines) && IsRect(points) && |lines| == |points|
    requires IsMatrix(H, |points|, |points|) && IsMatrix(invH, |points|, |points|)
    requires MatMul(invH, H) == Identity(|points|)
    requires j < NumCols(lines) && k < NumCols(points)
    ensures ApplyH(lines, H, invH, GeomTypeLine).Ok? && ApplyH(points, H, invH, GeomTypePoint).Ok?
    ensures Dot(Column(ApplyH(lines, H, invH, GeomTypeLine).value, j),
                Column(ApplyH(points, H, invH, GeomTypePoint).value, k)) ==
            Dot(Column(lines, j), Column(points, k))
  {
    var n := |points|;
    var l, x := Column(lines, j), Column(points, k);
    LineColumns(lines, H, invH, j);
    PointColumns(points, H, invH, k);
    MatVecAdjoint(invH, n, l, MatVec(H, x));
    MatVecMatMul(invH, H, x);
    MatVecIdentity(x);
  }
}
