/** The quadratic form of the box filter's covariance: its four axes are definite exactly if it is positive. */
module KalmanForm {
  import opened DenseMatrix
  import opened Kalman

  lemma PositiveFactor(a: real, x: real, p: real)
    requires p == a * x && p > 0.0 && a > 0.0
    ensures x > 0.0
  {
    assert x <= 0.0 ==> a * x <= 0.0;
  }

  lemma NonNegativeProduct(x: real, y: real, p: real)
    requires p == x * y && x >= 0.0 && y >= 0.0
    ensures p >= 0.0
  {
  }

  ghost predicate PositiveDefinite(cov: Matrix) {
    Dim(cov, 8, 8) && forall v: Vector :: |v| == 8 && NonZero(v) ==> Dot(v, Apply(cov, v)) > 0.0
  }

  ghost predicate NonZero(v: Vector) {
    exists i :: 0 <= i < |v| && v[i] != 0.0
  }

  /** The quadratic form of one axis. */
  function BlockForm(f: Axis, x: real, y: real): real {
    x * (f.a * x + f.b * y) + y * (f.b * x + f.c * y)
  }

  lemma BlockSquares(a: real, b: real, c: real, x: real, y: real, q: real)
    requires q == x * (a * x + b * y) + y * (b * x + c * y)
    ensures a * q == (a * x + b * y) * (a * x + b * y) + (a * c - b * b) * (y * y)
  {
    var w := a * x + b * y;
    assert q == x * w + y * (b * x + c * y);
    assert a * q == a * x * w + a * y * (b * x + c * y);
    assert a * x * w == w * w - b * y * w;
    assert b * y * w == a * b * x * y + b * b * (y * y);
    assert a * y * (b * x + c * y) == a * b * x * y + a * c * (y * y);
  }

  /** The form of a definite axis vanishes at the origin only. */
  lemma BlockSign(f: Axis, x: real, y: real)
    requires Definite(f)
    ensures BlockForm(f, x, y) >= 0.0 && (x != 0.0 || y != 0.0 ==> BlockForm(f, x, y) > 0.0)
  {
    var q, w, d := BlockForm(f, x, y), f.a * x + f.b * y, f.a * f.c - f.b * f.b;
    BlockSquares(f.a, f.b, f.c, x, y, q);
    SquareSign(w, w * w);
    SquareSign(y, y * y);
    NonNegativeProduct(d, y * y, d * (y * y));
    if y != 0.0 {
      PositiveProduct(d, y * y, d * (y * y));
      PositiveFactor(f.a, q, f.a * q);
    } else {
      SquareSign(x, x * x);
      assert q == f.a * (x * x);
      NonNegativeProduct(f.a, x * x, q);
      if x != 0.0 { PositiveProduct(f.a, x * x, q); }
    }
  }

  /** The form of any other axis is not positive somewhere else. */
  lemma BlockWitness(f: Axis) returns (x: real, y: real)
    requires !Definite(f)
    ensures (x != 0.0 || y != 0.0) && BlockForm(f, x, y) <= 0.0
  {
    if f.a <= 0.0 {
      x, y := 1.0, 0.0;
    } else {
      x, y := -f.b, f.a;
      var d := f.a * f.c - f.b * f.b;
      assert f.a * x + f.b * y == 0.0;
      assert f.b * x + f.c * y == d;
      assert BlockForm(f, x, y) == f.a * d;
      NonNegativeProduct(f.a, -d, f.a * -d);
    }
  }

  function Total(p: Vector, k: nat): real
    requires k <= |p|
  {
    if k == 0 then 0.0 else Total(p, k - 1) + p[k - 1]
  }

  ghost predicate Terms(u: Vector, w: Vector, p: Vector) {
    |u| == |w| == |p| && forall i :: 0 <= i < |p| ==> p[i] == u[i] * w[i]
  }

  lemma TermsOf(u: Vector, w: Vector) returns (p: Vector)
    requires |u| == |w|
    ensures |p| == |u| && Terms(u, w, p)
  {
    p := seq(|u|, i requires 0 <= i < |u| => u[i] * w[i]);
  }

  lemma {:induction false} DotTotal(u: Vector, w: Vector, p: Vector, k: nat)
    requires Terms(u, w, p) && k <= |u|
    ensures Dot(u[..k], w[..k]) == Total(p, k)
  {
    if k > 0 {
      DotTotal(u, w, p, k - 1);
      assert u[..k][..k - 1] == u[..k - 1] && w[..k][..k - 1] == w[..k - 1];
    }
  }

  lemma TotalInPairs(p: Vector)
    requires |p| == 8
    ensures Total(p, 8) == (p[0] + p[4]) + (p[1] + p[5]) + (p[2] + p[6]) + (p[3] + p[7])
  {
    assert Total(p, 0) == 0.0;
    forall k | 0 <= k < 8
      ensures Total(p, k + 1) == Total(p, k) + p[k]
    {
    }
  }

  lemma RepresentedRows(mean: Vector, cov: Matrix, fs: seq<Axis>, v: Vector, l: nat)
    requires Represents(mean, cov, fs) && |v| == 8 && l < 4
    ensures Apply(cov, v)[l] == fs[l].a * v[l] + fs[l].b * v[l + 4]
    ensures Apply(cov, v)[l + 4] == fs[l].b * v[l] + fs[l].c * v[l + 4]
  {
    DotTwo(cov[l], v, l, l + 4);
    DotTwo(cov[l + 4], v, l, l + 4);
  }

  lemma AxisTerm(mean: Vector, cov: Matrix, fs: seq<Axis>, v: Vector, p: Vector, l: nat)
    requires Represents(mean, cov, fs) && |v| == 8 && l < 4 && Terms(v, Apply(cov, v), p)
    ensures p[l] + p[l + 4] == BlockForm(fs[l], v[l], v[l + 4])
  {
    RepresentedRows(mean, cov, fs, v, l);
  }

  ghost predicate InBlocks(fs: seq<Axis>, v: Vector, d: real) {
    && |fs| == 4 && |v| == 8
    && d == BlockForm(fs[0], v[0], v[4]) + BlockForm(fs[1], v[1], v[5])
            + BlockForm(fs[2], v[2], v[6]) + BlockForm(fs[3], v[3], v[7])
  }

  lemma TotalInBlocks(fs: seq<Axis>, v: Vector, p: Vector)
    requires |fs| == 4 && |v| == 8 && |p| == 8
    requires forall l :: 0 <= l < 4 ==> p[l] + p[l + 4] == BlockForm(fs[l], v[l], v[l + 4])
    ensures InBlocks(fs, v, Total(p, 8))
  {
    hide BlockForm;
    TotalInPairs(p);
  }

  /** The form of a represented covariance is the sum of the forms of its axes. */
  lemma FormInBlocks(mean: Vector, cov: Matrix, fs: seq<Axis>, v: Vector)
    requires Represents(mean, cov, fs) && |v| == 8
    ensures InBlocks(fs, v, Dot(v, Apply(cov, v)))
  {
    hide BlockForm, Total, Dot, Entry, Terms, InBlocks;
    var w := Apply(cov, v);
    var p := TermsOf(v, w);
    DotTotal(v, w, p, 8);
    assert v[..8] == v && w[..8] == w;
    forall l | 0 <= l < 4
      ensures p[l] + p[l + 4] == BlockForm(fs[l], v[l], v[l + 4])
    {
      AxisTerm(mean, cov, fs, v, p, l);
    }
    TotalInBlocks(fs, v, p);
  }

  lemma DefiniteForm(mean: Vector, cov: Matrix, fs: seq<Axis>, v: Vector)
    requires Represents(mean, cov, fs) && AllDefinite(fs) && |v| == 8 && NonZero(v)
    ensures Dot(v, Apply(cov, v)) > 0.0
  {
    hide BlockForm, Represents;
    FormInBlocks(mean, cov, fs, v);
    forall l | 0 <= l < 4
      ensures BlockForm(fs[l], v[l], v[l + 4]) >= 0.0
      ensures v[l] != 0.0 || v[l + 4] != 0.0 ==> BlockForm(fs[l], v[l], v[l + 4]) > 0.0
    {
      BlockSign(fs[l], v[l], v[l + 4]);
    }
  }

  lemma BlockZero(f: Axis)
    ensures BlockForm(f, 0.0, 0.0) == 0.0
  {
  }

  lemma IndefiniteForm(mean: Vector, cov: Matrix, fs: seq<Axis>, l: nat) returns (v: Vector)
    requires |fs| == 4 && Represents(mean, cov, fs) && l < 4 && !Definite(fs[l])
    ensures |v| == 8 && NonZero(v) && Dot(v, Apply(cov, v)) <= 0.0
  {
    hide Definite, Represents, BlockForm, Dot;
    var x, y := BlockWitness(fs[l]);
    v := seq(8, j => if j == l then x else if j == l + 4 then y else 0.0);
    FormInBlocks(mean, cov, fs, v);
    assert v[l] == x && v[l + 4] == y;
    forall k | 0 <= k < 4 && k != l
      ensures BlockForm(fs[k], v[k], v[k + 4]) == 0.0
    {
      BlockZero(fs[k]);
    }
  }

  /** A represented covariance is positive definite if and only if its four axes are definite. */
  lemma DefiniteExactly(mean: Vector, cov: Matrix, fs: seq<Axis>)
    requires Represents(mean, cov, fs)
    ensures PositiveDefinite(cov) <==> AllDefinite(fs)
  {
    hide Definite;
    if AllDefinite(fs) {
      forall v: Vector | |v| == 8 && NonZero(v)
        ensures Dot(v, Apply(cov, v)) > 0.0
      {
        DefiniteForm(mean, cov, fs, v);
      }
    } else {
      var l :| 0 <= l < 4 && !Definite(fs[l]);
      var v := IndefiniteForm(mean, cov, fs, l);
    }
  }
}
