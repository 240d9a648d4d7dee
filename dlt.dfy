/** The part of `solve_dlt` that follows the singular value decomposition:
    the search for the smallest singular value and the reshape of the
    matching right singular vector into the 3 x 4 projection matrix.  The
    decomposition itself is not modelled; W (the 12 singular values) and V
    (12 x 12, one right singular vector per column) are inputs. */
module Dlt {
  import opened LinAlg
  import opened Design

  /** The index of the first smallest value among `W[0 .. n)`. */
  function FirstMinIndex(W: Vector, n: nat): (k: nat)
    requires 0 < n <= |W|
    ensures k < n
    ensures forall i :: 0 <= i < n ==> W[k] <= W[i]
    ensures forall i :: 0 <= i < k ==> W[k] < W[i]
  {
    if n == 1 then 0
    else
      var k' := FirstMinIndex(W, n - 1);
      if W[n - 1] < W[k'] then n - 1 else k'
  }

  /** The smallest value is first found after index 0 exactly when some
      later value is strictly below `W[0]`, the case in which the search of
      `solve_dlt` assigns `min_loc`. */
  lemma MinLocAssigned(W: Vector)
    requires |W| == 12
    ensures FirstMinIndex(W, 12) != 0 <==> exists i :: 1 <= i < 12 && W[i] < W[0]
  {
    var k := FirstMinIndex(W, 12);
    if k != 0 {
      assert 1 <= k < 12 && W[k] < W[0];
    }
  }

  /** P read row by row from a 12-vector: `P[r][c] == v[4 * r + c]`. */
  function Reshape(v: Vector): (P: Matrix)
    requires |v| == 12
    ensures IsCamera(P)
    ensures forall r, c :: 0 <= r < 3 && 0 <= c < 4 ==> P[r][c] == v[4 * r + c]
  {
    [v[0..4], v[4..8], v[8..12]]
  }

  /** Reshape undoes Flatten ... */
  lemma {:induction false} ReshapeFlatten(P: Matrix)
    requires IsCamera(P)
    ensures Reshape(Flatten(P)) == P
  {
    var Q := Reshape(Flatten(P));
    forall r | 0 <= r < 3 ensures Q[r] == P[r] {
      forall c | 0 <= c < 4 ensures Q[r][c] == P[r][c] {
        assert Q[r][c] == Flatten(P)[4 * r + c];
      }
    }
  }

  /** ... and Flatten undoes Reshape, so the design matrix and `solve_dlt`
      use one and the same row-major layout of P. */
  lemma {:induction false} FlattenReshape(v: Vector)
    requires |v| == 12
    ensures Flatten(Reshape(v)) == v
  {
    var w := Flatten(Reshape(v));
    forall i | 0 <= i < 12 ensures w[i] == v[i] {
      var r, c := i / 4, i % 4;
      assert i == 4 * r + c;
    }
  }

  /** The loop of `solve_dlt` over indices 1 .. 11: `vmin` holds the
      smallest value so far, and `min_loc` moves only on a strictly
      smaller value.  The source leaves `min_loc` unassigned until the first
      move; the precondition says that a move happens. */
  method MinLoc(W: Vector) returns (minLoc: nat)
    requires |W| == 12
    requires exists i :: 1 <= i < 12 && W[i] < W[0]
    ensures minLoc == FirstMinIndex(W, 12)
    ensures 1 <= minLoc < 12
  {
    var vmin := W[0];
    minLoc := 0;
    var i := 1;
    while i < 12
      invariant 1 <= i <= 12
      invariant vmin == W[FirstMinIndex(W, i)]
      invariant FirstMinIndex(W, i) != 0 ==> minLoc == FirstMinIndex(W, i)
    {
      if W[i] < vmin {
        vmin := W[i];
        minLoc := i;
      }
      i := i + 1;
    }
    MinLocAssigned(W);
  }

  /** `solve_dlt` after the decomposition: P starts as the 3 x 4 identity
      and all twelve entries are overwritten with column `min_loc` of V,
      row-major. */
  method SolveDlt(W: Vector, V: Matrix) returns (P: array2<real>)
    requires |W| == 12 && IsMatrix(V, 12, 12)
    requires exists i :: 1 <= i < 12 && W[i] < W[0]
    ensures fresh(P) && P.Length0 == 3 && P.Length1 == 4
    ensures forall r, c :: 0 <= r < 3 && 0 <= c < 4 ==> P[r, c] == V[4 * r + c][FirstMinIndex(W, 12)]
    ensures Elements(P) == Reshape(Column(V, FirstMinIndex(W, 12)))
  {
    var minLoc := MinLoc(W);
    P := new real[3, 4]((r, c) => if r == c then 1.0 else 0.0);
    ReshapeRow(P, 0, V, minLoc);
    ReshapeRow(P, 1, V, minLoc);
    ReshapeRow(P, 2, V, minLoc);
    ghost var Q := Reshape(Column(V, minLoc));
    forall r | 0 <= r < 3 ensures Elements(P)[r] == Q[r] {
      forall c | 0 <= c < 4 ensures Elements(P)[r][c] == Q[r][c] {
        assert Q[r][c] == Column(V, minLoc)[4 * r + c];
      }
    }
  }

  /** Row `r` of the reshape: `P[r, c] := V[4 * r + c][m]` for c = 0 .. 3. */
  method ReshapeRow(P: array2<real>, r: nat, V: Matrix, m: nat)
    requires r < P.Length0 == 3 && P.Length1 == 4 && IsMatrix(V, 12, 12) && m < 12
    modifies P
    ensures forall c :: 0 <= c < 4 ==> P[r, c] == V[4 * r + c][m]
    ensures forall r', c :: 0 <= r' < 3 && r' != r && 0 <= c < 4 ==> P[r', c] == old(P[r', c])
  {
    P[r, 0] := V[4 * r][m];
    P[r, 1] := V[4 * r + 1][m];
    P[r, 2] := V[4 * r + 2][m];
    P[r, 3] := V[4 * r + 3][m];
  }
}
