# Camera calibration by the direct linear transform

This project models the numerical core of the camera-calibration exercise in
`ch3_calibration/pcv03-practical/Pcv3.cpp` and proves properties of it. The
exercise estimates a 3 x 4 projection matrix P from pairs of homogeneous 2D
image points and 3D object points. It proceeds in four steps:

- it conditions both point sets (`getCondition2D`, `getCondition3D`);
- it builds the 2N x 12 design matrix of the direct linear transform
  (`getDesignMatrix_camera`);
- it picks the right singular vector of the smallest singular value and
  reshapes it into P (`solve_dlt`);
- it maps point and line sets by homographies (`applyH`).

The repository's structure-from-motion chapter (`ch5_sfm`) contains a
bundle-adjustment optimizer. It is a separate program and is not part of
this model.

Point sets are matrices with one point per column, written as
`seq<seq<real>>` with entries `p[r][c]` (row r, column c). The arrays that
the source fills entry by entry are Dafny arrays. This covers the `t[]` and
`s[]` accumulators of the conditioning functions, the design matrix `A` and
the projection matrix `P`. All arithmetic is over `real`.

Modules:

- `LinAlg` (`linalg.dfy`): vectors, matrices, sums, dot products, matrix
  products and transposes, and their algebra. Products inside recursive
  definitions go through `Mul(a, b) == a * b`.
- `Condition` (`condition.dfy`): the accumulation loops and the 3 x 3 and
  4 x 4 conditioning matrices. It then proves what conditioning achieves:
  - each conditioned coordinate row has mean 0 and mean absolute deviation 1;
  - w stays 1;
  - conditioning twice changes nothing.
- `Design` (`design.dfy`): the design matrix, the in-place loop that fills
  it, and its layout. It proves that the design matrix sends the row-major
  12-vector of any P that projects every object point onto its image point
  to zero. This is the algebraic core of the direct linear transform.
- `Dlt` (`dlt.dfy`): the search for the smallest singular value, the
  reshape of the 12-vector into P, and the proof that this reshape exactly
  inverts the row-major layout used by the design matrix.
- `Transform` (`transform.dfy`): `applyH`. Points are mapped column by
  column by H, lines by the transposed inverse, and any other type is an
  error. The module also proves that the identity fixes points and that
  point-line incidence is preserved.

## Model

| member | source | states |
|---|---|---|
| Condition.RowMeans | ch3_calibration/pcv03-practical/Pcv3.cpp:26-34 | the first nested loop leaves in `t[r]` the mean of coordinate row r over all columns, for every row but the homogeneous one (likewise lines 65-74 of `getCondition3D`) |
| Condition.RowMeanAbsDevs | ch3_calibration/pcv03-practical/Pcv3.cpp:36-45 | the second nested loop leaves in `s[r]` the mean of the absolute deviations of row r from the given `t[r]`; when `t` holds the row means, that is the mean absolute deviation of each row (likewise lines 76-85) |
| Condition.GetCondition2D | ch3_calibration/pcv03-practical/Pcv3.cpp:19-53 | the returned 3 x 3 matrix has `1/s[r]` on the diagonal, `-t[r]/s[r]` in the last column and bottom row `[0, 0, 1]`, with `t` the row means and `s` the mean absolute deviations of the x and y rows |
| Condition.GetCondition3D | ch3_calibration/pcv03-practical/Pcv3.cpp:60-94 | the same for the 4 x 4 matrix of 3D points with three scale and translation pairs and bottom row `[0, 0, 0, 1]` |
| Condition.ConditionedEntry | ch3_calibration/pcv03-practical/Pcv3.cpp:47-50 | the conditioning matrix applied to a point with w = 1 maps coordinate r to `(p[r][c] - t[r]) * (1/s[r])` and leaves the homogeneous coordinate unchanged |
| Condition.StandardisedMean | ch3_calibration/pcv03-practical/Pcv3.cpp:26-34 | centring by the mean and dividing by the mean absolute deviation gives values whose mean is 0 |
| Condition.StandardisedSpread | ch3_calibration/pcv03-practical/Pcv3.cpp:36-45 | the same standardised values have mean absolute deviation exactly 1 |
| Condition.ConditionedRow | ch3_calibration/pcv03-practical/Pcv3.cpp:25-50 | for points with w = 1, each conditioned coordinate row is the standardised original row, with mean 0 and mean absolute deviation 1 |
| Condition.ConditioningNormalises | ch3_calibration/pcv03-practical/Pcv3.cpp:25-50 | conditioned points with w = 1 have their centre at the origin, spread 1 in every coordinate and still w = 1 |
| Condition.ConditioningIdempotent | ch3_calibration/pcv03-practical/Pcv3.cpp:19-53 | conditioned points can be conditioned again, their conditioning matrix is the identity, and conditioning them again returns them unchanged |
| Condition.UnitConditionMatrix | ch3_calibration/pcv03-practical/Pcv3.cpp:47-50 | for centre 0 and scale 1 the conditioning matrix is the identity |
| Design.GetDesignMatrixCamera | ch3_calibration/pcv03-practical/Pcv3.cpp:121-165 | the loop over the N pairs, with the row counter stepped by 2, yields a fresh 2N x 12 matrix equal entry for entry to the design matrix |
| Design.FillRowX | ch3_calibration/pcv03-practical/Pcv3.cpp:132-145 | the twelve writes to row i give `[-w X, 0, x X]` and change no other row |
| Design.FillRowY | ch3_calibration/pcv03-practical/Pcv3.cpp:147-160 | the twelve writes to row i + 1 give `[0, -w X, y X]` and change no other row |
| Design.FillBlock | ch3_calibration/pcv03-practical/Pcv3.cpp:132-135 | four consecutive writes of a scaled object point into one row, and nothing else changes |
| Design.ZeroBlock | ch3_calibration/pcv03-practical/Pcv3.cpp:137-140 | four consecutive zero writes into one row, and nothing else changes |
| Design.PairRows | ch3_calibration/pcv03-practical/Pcv3.cpp:128-162 | pair j fills exactly rows 2j and 2j + 1 of the design matrix |
| Design.DesignMatrixLayout | ch3_calibration/pcv03-practical/Pcv3.cpp:132-160 | row 2j is `-w_j X_j`, then 0, then `x_j X_j`, and row 2j + 1 is 0, then `-w_j X_j`, then `y_j X_j`, entry by entry in the point coordinates |
| Design.RowsAgainstFlatten | ch3_calibration/pcv03-practical/Pcv3.cpp:132-160 | when the image point is a multiple of `P X`, both rows of the pair are orthogonal to the row-major 12-vector of P |
| Design.DesignMatrixAnnihilatesProjection | ch3_calibration/pcv03-practical/Pcv3.cpp:132-160 | when every image point is a multiple of the projection `P X_j` of its object point, the design matrix times the row-major 12-vector of P is zero |
| Dlt.FirstMinIndex | ch3_calibration/pcv03-practical/Pcv3.cpp:179-189 | the reference minimum search: the index it returns holds a value no larger than any other, and every earlier value is strictly larger |
| Dlt.MinLocAssigned | ch3_calibration/pcv03-practical/Pcv3.cpp:179-189 | the first minimum lies after index 0 exactly when some `W[i]` with i >= 1 is strictly below `W[0]`, which is exactly when the loop assigns `min_loc` |
| Dlt.MinLoc | ch3_calibration/pcv03-practical/Pcv3.cpp:179-189 | the strict `<` loop over indices 1 to 11 leaves in `min_loc` the index of the first smallest singular value |
| Dlt.Reshape | ch3_calibration/pcv03-practical/Pcv3.cpp:191-203 | the reshape gives a 3 x 4 matrix with `P[r][c] == v[4r + c]` |
| Dlt.ReshapeFlatten | ch3_calibration/pcv03-practical/Pcv3.cpp:191-203 | reshaping the row-major 12-vector of P gives P back |
| Dlt.FlattenReshape | ch3_calibration/pcv03-practical/Pcv3.cpp:191-203 | flattening the reshape of a 12-vector gives the vector back, so the design matrix and `solve_dlt` use the same layout |
| Dlt.SolveDlt | ch3_calibration/pcv03-practical/Pcv3.cpp:173-206 | the result is a fresh 3 x 4 matrix with `P[r, c] == V[4r + c][min_loc]`, i.e. the reshape of column `min_loc` of V |
| Dlt.ReshapeRow | ch3_calibration/pcv03-practical/Pcv3.cpp:192-195 | the four writes of one row of P copy `V[4r + c][m]` and leave the other rows unchanged |
| Transform.ApplyH | ch3_calibration/pcv03-practical/Pcv3.cpp:103-113 | the point and line types give a matrix with one column per input object (as many rows as H for points, as the input for lines), and every other type code gives the "Unhandled case!" error |
| Transform.PointColumns | ch3_calibration/pcv03-practical/Pcv3.cpp:106-107 | for points, column j of the result is H times column j of the input |
| Transform.LineColumns | ch3_calibration/pcv03-practical/Pcv3.cpp:108-109 | for lines, column j of the result is the transposed inverse times column j of the input |
| LinAlg.MatMulIdentity | ch3_calibration/pcv03-practical/Pcv3.cpp:106-107 | multiplying any matrix by the identity on the left returns it unchanged; this is the fact behind `IdentityFixesPoints` and the idempotence of conditioning |
| Transform.IdentityFixesPoints | ch3_calibration/pcv03-practical/Pcv3.cpp:106-107 | the identity transformation returns the points unchanged |
| Transform.IncidencePreserved | ch3_calibration/pcv03-practical/Pcv3.cpp:108-109 | with the given inverse, a transformed line meets a transformed point exactly as the original line meets the original point, so incidence is preserved in both directions |

## Left out

- `cv::SVD::compute` in `solve_dlt` (Pcv3.cpp:176) is a foreign numeric routine. W and V (the transpose of the returned VT) are inputs, and 12 singular values are required, which holds when there are at least six point pairs.
- The matrix inverse `H.inv()` in the line branch of `applyH` is OpenCV's. It is the input `invH`, and the model does not check that it is the inverse. `IncidencePreserved` assumes it.
- `decondition`, `interprete` and `calibrate` are not part of this model. They are single calls to the OpenCV inverse, RQ decomposition and trigonometry, or compositions of the modelled steps with them.
- The debug output `std::cout` at Pcv3.cpp:185 is omitted, because it only prints.
- Helper.cpp, Helper.h, main.cpp and unit_test.cpp are not part of this model. They hold the user interface, file parsing, command-line handling and unit tests against rounded float constants.
- All arithmetic is `real`. Single-precision rounding, infinities and NaN are not modelled, and the unqualified `abs` is the real absolute value.
- Condition.GetCondition2D and Condition.GetCondition3D require exactly 3 (respectively 4) rows, at least one column and no constant coordinate row. The fixed buffers `t[2]`/`t[3]` overflow for more rows. Otherwise `cols == 0` or `s[r] == 0` divides by zero, which float arithmetic turns into infinities or NaN instead of an error.
- Dlt.MinLoc and Dlt.SolveDlt require that some `W[i]` with i >= 1 is strictly below `W[0]`. Otherwise the source reads `min_loc` without ever assigning it. `MinLocAssigned` states exactly when this happens.
- Design.GetDesignMatrixCamera requires that the object-point set has at least as many columns as the image-point set and at least 4 rows, and that the image-point set has at least 3 rows. The source reads those entries without checking.
- Transform.ApplyH requires the matrix shapes that OpenCV's product would otherwise reject at run time. The dimension-mismatch exception is not modelled.
