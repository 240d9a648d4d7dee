/** Conditioning of point sets (`getCondition2D`, `getCondition3D`): a
    similarity-like transform that moves the centre of the points to the
    origin and scales every coordinate to a mean absolute deviation of one.
    Points are homogeneous and stored one per column; the last row is the
    homogeneous coordinate and is never read. */
module Condition {
  import opened LinAlg

  /** Arithmetic mean of a non-empty sequence. */
  function Mean(xs: Vector): real
    requires |xs| > 0
  {
    Sum(xs) / (|xs| as real)
  }

  /** Absolute deviations `|x - t|` of every entry from `t`. */
  function Deviations(xs: Vector, t: real): (r: Vector)
    ensures |r| == |xs| && forall c :: 0 <= c < |xs| ==> r[c] == Abs(xs[c] - t)
  {
    seq(|xs|, c requires 0 <= c < |xs| => Abs(xs[c] - t))
  }

  /** Mean absolute deviation from the mean. */
  function MeanAbsDev(xs: Vector): real
    requires |xs| > 0
  {
    Mean(Deviations(xs, Mean(xs)))
  }

  /** The points' centre: the mean of each of the first `d` coordinate rows. */
  function Centre(p: Matrix, d: nat): (t: Vector)
    requires d <= |p| && forall r :: 0 <= r < d ==> |p[r]| > 0
    ensures |t| == d && forall r :: 0 <= r < d ==> t[r] == Mean(p[r])
  {
    seq(d, r requires 0 <= r < d => Mean(p[r]))
  }

  /** The points' scale: the mean absolute deviation of each of the first `d` rows. */
  function Spread(p: Matrix, d: nat): (s: Vector)
    requires d <= |p| && forall r :: 0 <= r < d ==> |p[r]| > 0
    ensures |s| == d && forall r :: 0 <= r < d ==> s[r] == MeanAbsDev(p[r])
  {
    seq(d, r requires 0 <= r < d => MeanAbsDev(p[r]))
  }

  /** The mean absolute deviation of each of the first `d` rows from the
      given centre `t`. */
  function SpreadAbout(p: Matrix, d: nat, t: Vector): (s: Vector)
    requires d <= |p| && |t| == d && forall r :: 0 <= r < d ==> |p[r]| > 0
    ensures |s| == d && forall r :: 0 <= r < d ==> s[r] == Mean(Deviations(p[r], t[r]))
  {
    seq(d, r requires 0 <= r < d => Mean(Deviations(p[r], t[r])))
  }

  /** `p` is a (d+1) x N point set, N >= 1, in which no coordinate row is
      constant: the conditioning matrix of `p` is then defined. */
  predicate Conditionable(p: Matrix, d: nat) {
    IsRect(p) && |p| == d + 1 && NumCols(p) >= 1 &&
    forall r :: 0 <= r < d ==> MeanAbsDev(p[r]) != 0.0
  }

  /** Every point of the (d+1) x N set `p` has homogeneous coordinate 1. */
  predicate Dehomogenised(p: Matrix, d: nat)
    requires IsRect(p) && |p| == d + 1
  {
    forall c :: 0 <= c < NumCols(p) ==> p[d][c] == 1.0
  }

  /** The (d+1) x (d+1) conditioning matrix for centre `t` and scale `s`:
      `1/s[i]` on the diagonal, `-t[i]/s[i]` in the last column and the
      bottom row `[0, ..., 0, 1]`. */
  function ConditionMatrix(t: Vector, s: Vector): (m: Matrix)
    requires |t| == |s| && forall i :: 0 <= i < |s| ==> s[i] != 0.0
    ensures IsMatrix(m, |t| + 1, |t| + 1)
  {
    var d := |t|;
    seq(d + 1, i requires 0 <= i <= d =>
      seq(d + 1, k requires 0 <= k <= d =>
        if i == d then (if k == d then 1.0 else 0.0)
        else if k == i then 1.0 / s[i]
        else if k == d then -t[i] / s[i]
        else 0.0))
  }

  /** The first accumulation loop of `getCondition2D` and `getCondition3D`:
      the centre of the first `d = rows - 1` coordinate rows, accumulated in a
      fixed buffer of size `d`. */
  method RowMeans(p: Matrix, d: nat) returns (t: Vector)
    requires IsRect(p) && |p| == d + 1 && NumCols(p) >= 1
    ensures t == Centre(p, d)
  {
    var rows, cols := |p|, |p[0]|;
    var tb := new real[d](_ => 0.0);
    var r := 0;
    while r < rows - 1
      invariant 0 <= r <= d
      invariant forall k :: 0 <= k < r ==> tb[k] == Mean(p[k])
      invariant forall k :: r <= k < d ==> tb[k] == 0.0
    {
      var c := 0;
      while c < cols
        invariant 0 <= c <= cols
        invariant tb[r] == Sum(p[r][..c])
        invariant forall k :: 0 <= k < r ==> tb[k] == Mean(p[k])
        invariant forall k :: r < k < d ==> tb[k] == 0.0
      {
        SumPrefixStep(p[r], c);
        tb[r] := tb[r] + p[r][c];
        c := c + 1;
      }
      SumWhole(p[r]);
      tb[r] := tb[r] / (cols as real);
      r := r + 1;
    }
    t := tb[..];
  }

  /** The second accumulation loop: the mean absolute deviation of each of
      the first `d` rows from its centre `t[r]`, in a buffer of size `d`. */
  method RowMeanAbsDevs(p: Matrix, d: nat, t: Vector) returns (s: Vector)
    requires IsRect(p) && |p| == d + 1 && NumCols(p) >= 1
    requires |t| == d
    ensures s == SpreadAbout(p, d, t)
    ensures t == Centre(p, d) ==> s == Spread(p, d)
  {
    var rows, cols := |p|, |p[0]|;
    var sb := new real[d](_ => 0.0);
    var r := 0;
    while r < rows - 1
      invariant 0 <= r <= d
      invariant forall k :: 0 <= k < r ==> sb[k] == Mean(Deviations(p[k], t[k]))
      invariant forall k :: r <= k < d ==> sb[k] == 0.0
    {
      ghost var dev := Deviations(p[r], t[r]);
      var c := 0;
      while c < cols
        invariant 0 <= c <= cols
        invariant sb[r] == Sum(dev[..c])
        invariant forall k :: 0 <= k < r ==> sb[k] == Mean(Deviations(p[k], t[k]))
        invariant forall k :: r < k < d ==> sb[k] == 0.0
      {
        SumPrefixStep(dev, c);
        sb[r] := sb[r] + Abs(p[r][c] - t[r]);
        c := c + 1;
      }
      SumWhole(dev);
      sb[r] := sb[r] / (cols as real);
      r := r + 1;
    }
    s := sb[..];
    if t == Centre(p, d) {
      assert forall k :: 0 <= k < d ==> s[k] == SpreadAbout(p, d, t)[k];
    }
  }

  /** `getCondition2D`: the 3 x 3 conditioning matrix of a set of 2D points
      given as a 3 x N matrix (rows x, y, w). */
  method GetCondition2D(p: Matrix) returns (T: Matrix)
    requires Conditionable(p, 2)
    ensures T == ConditionMatrix(Centre(p, 2), Spread(p, 2))
  {
    var t := RowMeans(p, 2);
    var s := RowMeanAbsDevs(p, 2, t);
    T := [[1.0 / s[0], 0.0, -t[0] / s[0]],
          [0.0, 1.0 / s[1], -t[1] / s[1]],
          [0.0, 0.0, 1.0]];
    ghost var m := ConditionMatrix(t, s);
    assert T[0] == m[0] && T[1] == m[1] && T[2] == m[2];
  }

  /** `getCondition3D`: the 4 x 4 conditioning matrix of a set of 3D points
      given as a 4 x N matrix (rows X, Y, Z, W). */
  method GetCondition3D(p: Matrix) returns (T: Matrix)
    requires Conditionable(p, 3)
    ensures T == ConditionMatrix(Centre(p, 3), Spread(p, 3))
  {
    var t := RowMeans(p, 3);
    var s := RowMeanAbsDevs(p, 3, t);
    T := [[1.0 / s[0], 0.0, 0.0, -t[0] / s[0]],
          [0.0, 1.0 / s[1], 0.0, -t[1] / s[1]],
          [0.0, 0.0, 1.0 / s[2], -t[2] / s[2]],
          [0.0, 0.0, 0.0, 1.0]];
    ghost var m := ConditionMatrix(t, s);
    assert T[0] == m[0] && T[1] == m[1] && T[2] == m[2] && T[3] == m[3];
  }

  /** The conditioning matrix of `p` applied to `p` itself. */
  function Conditioned(p: Matrix, d: nat): (q: Matrix)
    requires Conditionable(p, d)
    ensures IsMatrix(q, d + 1, NumCols(p))
  {
    MatMul(ConditionMatrix(Centre(p, d), Spread(p, d)), p)
  }

  /** A conditioned coordinate is the original one, moved by the centre and
      divided by the scale; the homogeneous coordinate is left unchanged. */
  lemma ConditionedEntry(p: Matrix, d: nat, r: nat, c: nat)
    requires Conditionable(p, d) && r <= d && c < NumCols(p)
    ensures r < d && p[d][c] == 1.0 ==>
      Conditioned(p, d)[r][c] == Mul(p[r][c] - Mean(p[r]), 1.0 / MeanAbsDev(p[r]))
    ensures r == d ==> Conditioned(p, d)[r][c] == p[d][c]
  {
    var T := ConditionMatrix(Centre(p, d), Spread(p, d));
    var col := Column(p, c);
    if r < d {
      DotTwoEntries(T[r], col, r, d);
      CentreAndScale(p[r][c], Mean(p[r]), MeanAbsDev(p[r]));
    } else {
      DotOneEntry(T[d], col, d);
      MulOne(p[d][c]);
    }
  }

  /** The arithmetic step of `ConditionedEntry`: a row `[.., 1/s, .., -t/s]`
      applied to a point with w = 1. */
  lemma CentreAndScale(x: real, t: real, s: real)
    requires s != 0.0
    ensures Mul(1.0 / s, x) + Mul(-t / s, 1.0) == Mul(x - t, 1.0 / s)
  {
  }

  /** `(x - Mean(xs)) / MeanAbsDev(xs)` for every entry `x` of `xs`. */
  function Standardised(xs: Vector): (ys: Vector)
    requires |xs| > 0 && MeanAbsDev(xs) != 0.0
    ensures |ys| == |xs|
  {
    Affine(xs, Mean(xs), 1.0 / MeanAbsDev(xs))
  }

  lemma StandardisedMean(xs: Vector)
    requires |xs| > 0 && MeanAbsDev(xs) != 0.0
    ensures Mean(Standardised(xs)) == 0.0
  {
    var n, t, k := |xs|, Mean(xs), 1.0 / MeanAbsDev(xs);
    SumAffine(xs, t, k);
    MeanOfCentred(n as real, Sum(xs), t, k);
  }

  /** The arithmetic step of `StandardisedMean`. */
  lemma MeanOfCentred(n: real, total: real, t: real, k: real)
    requires n > 0.0 && t == total / n
    ensures Mul(total - Mul(n, t), k) / n == 0.0
  {
    assert Mul(n, t) == total;
    MulZero(k);
  }

  /** With a positive factor, the absolute values of an affine image are the
      scaled absolute deviations. */
  lemma AffineDeviations(xs: Vector, t: real, k: real)
    requires k > 0.0
    ensures Deviations(Affine(xs, t, k), 0.0) == Scale(k, Deviations(xs, t))
  {
    var lhs, rhs := Deviations(Affine(xs, t, k), 0.0), Scale(k, Deviations(xs, t));
    forall c | 0 <= c < |xs| ensures lhs[c] == rhs[c] {
      AbsScale(xs[c] - t, k);
    }
  }

  lemma StandardisedSpread(xs: Vector)
    requires |xs| > 0 && MeanAbsDev(xs) != 0.0
    ensures MeanAbsDev(Standardised(xs)) == 1.0
  {
    var n, t, s := |xs|, Mean(xs), MeanAbsDev(xs);
    var k := 1.0 / s;
    var dev := Deviations(xs, t);
    SumNonNegative(dev);
    assert s > 0.0 && k > 0.0;
    StandardisedMean(xs);
    AffineDeviations(xs, t, k);
    SumScale(k, dev);
    MeanOfScaled(n as real, s, k, Sum(dev));
  }

  /** The arithmetic step of `StandardisedSpread`: with `total == n * s`,
      `(k * total) / n == 1` for `k == 1 / s`. */
  lemma MeanOfScaled(n: real, s: real, k: real, total: real)
    requires n > 0.0 && s > 0.0 && k == 1.0 / s && s == total / n
    ensures Mul(k, total) / n == 1.0
  {
    assert total == n * s;
    assert k * s == 1.0;
  }

  lemma AbsScale(x: real, k: real)
    requires k > 0.0
    ensures Abs(Mul(x, k) - 0.0) == Mul(k, Abs(x))
  {
    if x < 0.0 {
      assert x * k < 0.0;
    } else {
      assert x * k >= 0.0;
    }
  }

  /** Conditioning one coordinate row of points with w = 1 standardises it:
      mean 0 and mean absolute deviation 1. */
  lemma ConditionedRow(p: Matrix, d: nat, r: nat)
    requires Conditionable(p, d) && Dehomogenised(p, d) && r < d
    ensures Conditioned(p, d)[r] == Standardised(p[r])
    ensures Mean(Conditioned(p, d)[r]) == 0.0
    ensures MeanAbsDev(Conditioned(p, d)[r]) == 1.0
  {
    var q := Conditioned(p, d);
    forall c | 0 <= c < NumCols(p) ensures q[r][c] == Standardised(p[r])[c] {
      ConditionedEntry(p, d, r, c);
    }
    StandardisedMean(p[r]);
    StandardisedSpread(p[r]);
  }

  /** Conditioning points with w = 1 moves their centre to the origin, makes
      every scale 1 and keeps w = 1. */
  lemma ConditioningNormalises(p: Matrix, d: nat)
    requires Conditionable(p, d) && Dehomogenised(p, d)
    ensures var q := Conditioned(p, d);
      Centre(q, d) == Zeros(d) &&
      Spread(q, d) == seq(d, r => 1.0) &&
      Dehomogenised(q, d)
  {
    var q := Conditioned(p, d);
    forall r | 0 <= r < d ensures Mean(q[r]) == 0.0 && MeanAbsDev(q[r]) == 1.0 {
      ConditionedRow(p, d, r);
    }
    forall c | 0 <= c < NumCols(p) ensures q[d][c] == 1.0 {
      ConditionedEntry(p, d, d, c);
    }
  }

  /** Conditioning is idempotent: the conditioning matrix of already
      conditioned points is the identity. */
  lemma ConditioningIdempotent(p: Matrix, d: nat)
    requires Conditionable(p, d) && Dehomogenised(p, d)
    ensures Conditionable(Conditioned(p, d), d)
    ensures var q := Conditioned(p, d);
      ConditionMatrix(Centre(q, d), Spread(q, d)) == Identity(d + 1)
    ensures Conditioned(Conditioned(p, d), d) == Conditioned(p, d)
  {
    ConditioningNormalises(p, d);
    var q := Conditioned(p, d);
    assert forall r :: 0 <= r < d ==> MeanAbsDev(q[r]) == Spread(q, d)[r];
    UnitConditionMatrix(Centre(q, d), Spread(q, d));
    MatMulIdentity(q);
  }

  /** Centre 0 and scale 1 give the identity as conditioning matrix. */
  lemma UnitConditionMatrix(t: Vector, s: Vector)
    requires |t| == |s| && t == Zeros(|t|) && s == seq(|s|, r => 1.0)
    ensures ConditionMatrix(t, s) == Identity(|t| + 1)
  {
    var d := |t|;
    var m, I := ConditionMatrix(t, s), Identity(d + 1);
    forall i | 0 <= i <= d ensures m[i] == I[i] {
      forall k | 0 <= k <= d ensures m[i][k] == I[i][k] {
        if i < d {
          assert s[i] == 1.0 && t[i] == 0.0;
        }
      }
    }
  }
}
