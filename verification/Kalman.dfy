/** The box filter: a dense 8-dimensional Kalman filter, and the four 2-dimensional filters it amounts to. */
module Kalman {
  import opened DenseMatrix

  const WEIGHT_POSITION: real := 1.0 / 20.0
  const WEIGHT_VELOCITY: real := 1.0 / 160.0

  function InitialStd(h: real): (s: Vector)
    ensures |s| == 8
  {
    var p, v := 2.0 * WEIGHT_POSITION * h, 10.0 * WEIGHT_VELOCITY * h;
    [p, p, 0.01, p, v, v, 0.00001, v]
  }

  function MotionStd(h: real): (s: Vector)
    ensures |s| == 8
  {
    var p, v := WEIGHT_POSITION * h, WEIGHT_VELOCITY * h;
    [p, p, 0.01, p, v, v, 0.00001, v]
  }

  function MeasureStd(h: real): (s: Vector)
    ensures |s| == 4
  {
    var p := WEIGHT_POSITION * h;
    [p, p, 0.1, p]
  }

  ghost predicate IsMotion(f: Matrix) {
    Dim(f, 8, 8) && forall i, j :: 0 <= i < 8 && 0 <= j < 8 ==> f[i][j] == if j == i || j == i + 4 then 1.0 else 0.0
  }

  ghost predicate IsUpdate(h: Matrix) {
    Dim(h, 4, 8) && forall i, j :: 0 <= i < 4 && 0 <= j < 8 ==> h[i][j] == if j == i then 1.0 else 0.0
  }

  // ----- the dense filter

  function Apply(a: Matrix, v: Vector): (w: Vector)
    requires Dim(a, |a|, |v|)
    ensures |w| == |a| && forall i :: 0 <= i < |a| ==> w[i] == Dot(a[i], v)
  {
    seq(|a|, i requires 0 <= i < |a| => Dot(a[i], v))
  }

  function Sum(u: Vector, w: Vector): (s: Vector)
    requires |u| == |w|
    ensures |s| == |u| && forall i :: 0 <= i < |u| ==> s[i] == u[i] + w[i]
  {
    seq(|u|, i requires 0 <= i < |u| => u[i] + w[i])
  }

  function Difference(u: Vector, w: Vector): (s: Vector)
    requires |u| == |w|
    ensures |s| == |u| && forall i :: 0 <= i < |u| ==> s[i] == u[i] - w[i]
  {
    seq(|u|, i requires 0 <= i < |u| => u[i] - w[i])
  }

  function DenseCovariance(f: Matrix, cov: Matrix, h: real): (c: Matrix)
    requires IsMotion(f) && Dim(cov, 8, 8)
    ensures Dim(c, 8, 8)
  {
    Plus(Times(Times(f, cov, 8), Transpose(f, 8), 8), Diagonal(Squares(MotionStd(h))), 8)
  }

  function ProjectedCovariance(u: Matrix, cov: Matrix, h: real): (s: Matrix)
    requires IsUpdate(u) && Dim(cov, 8, 8)
    ensures Dim(s, 4, 4)
  {
    Plus(Times(Times(u, cov, 8), Transpose(u, 8), 4), Diagonal(Squares(MeasureStd(h))), 4)
  }

  /** The right-hand side of the equation for the gain. */
  function GainTarget(u: Matrix, cov: Matrix): (b: Matrix)
    requires IsUpdate(u) && Dim(cov, 8, 8)
    ensures Dim(b, 4, 8)
  {
    Transpose(Times(cov, Transpose(u, 8), 4), 4)
  }

  /** `x` is a solution of S x = B, as `llt().solve` returns; the gain is its transpose. */
  ghost predicate Solves(u: Matrix, cov: Matrix, h: real, x: Matrix)
    requires IsUpdate(u) && Dim(cov, 8, 8)
  {
    Dim(x, 4, 8) && Times(ProjectedCovariance(u, cov, h), x, 8) == GainTarget(u, cov)
  }

  function CorrectedMean(u: Matrix, mean: Vector, z: Vector, x: Matrix): (m: Vector)
    requires IsUpdate(u) && |mean| == 8 && |z| == 4 && Dim(x, 4, 8)
    ensures |m| == 8
  {
    var innovation := Difference(z, Apply(u, mean));
    Sum(mean, Times([innovation], x, 8)[0])
  }

  function CorrectedCovariance(u: Matrix, cov: Matrix, h: real, x: Matrix): (c: Matrix)
    requires IsUpdate(u) && Dim(cov, 8, 8) && Dim(x, 4, 8)
    ensures Dim(c, 8, 8)
  {
    Minus(cov, Explained(ProjectedCovariance(u, cov, h), x), 8)
  }

  // ----- the four small filters

  /** One coordinate with its velocity: means `p`, `v` and covariance [[a, b], [b, c]]. */
  datatype Axis = Axis(p: real, v: real, a: real, b: real, c: real)

  function SmallPredict(f: Axis, q: real, r: real): Axis {
    Axis(f.p + f.v, f.v, f.a + f.b + (f.b + f.c) + q, f.b + f.c, f.c + r)
  }

  /** The correction of an axis by a measurement, with gains `g` and `k`. */
  function CorrectBy(f: Axis, z: real, g: real, k: real): Axis {
    Axis(f.p + (z - f.p) * g, f.v + (z - f.p) * k, f.a - f.a * g, f.b - f.a * k, f.c - f.b * k)
  }

  /** The gains are the shares of `a` and `b` in the innovation variance `a + r`. */
  function SmallCorrect(f: Axis, z: real, r: real): Axis
    requires f.a + r != 0.0
  {
    CorrectBy(f, z, f.a / (f.a + r), f.b / (f.a + r))
  }

  ghost predicate Definite(f: Axis) { f.a > 0.0 && f.a * f.c - f.b * f.b > 0.0 }

  ghost predicate AllDefinite(fs: seq<Axis>) { |fs| == 4 && forall i :: 0 <= i < 4 ==> Definite(fs[i]) }

  function PredictWith(fs: seq<Axis>, q: Vector): (r: seq<Axis>)
    requires |fs| == 4 && |q| == 8
    ensures |r| == 4 && forall i :: 0 <= i < 4 ==> r[i] == SmallPredict(fs[i], q[i], q[i + 4])
  {
    seq(4, i requires 0 <= i < 4 => SmallPredict(fs[i], q[i], q[i + 4]))
  }

  function PredictAxes(fs: seq<Axis>): (r: seq<Axis>)
    requires |fs| == 4
    ensures |r| == 4
  {
    PredictWith(fs, Squares(MotionStd(fs[3].p)))
  }

  ghost predicate Solvable(fs: seq<Axis>, m: Vector)
    requires |fs| == 4 && |m| == 4
  {
    forall i :: 0 <= i < 4 ==> fs[i].a + m[i] != 0.0
  }

  function CorrectWith(fs: seq<Axis>, z: Vector, m: Vector): (r: seq<Axis>)
    requires |fs| == 4 && |z| == 4 && |m| == 4 && Solvable(fs, m)
    ensures |r| == 4 && forall i :: 0 <= i < 4 ==> r[i] == SmallCorrect(fs[i], z[i], m[i])
  {
    seq(4, i requires 0 <= i < 4 => SmallCorrect(fs[i], z[i], m[i]))
  }

  function CorrectAxes(fs: seq<Axis>, z: Vector): (r: seq<Axis>)
    requires |fs| == 4 && |z| == 4 && Solvable(fs, Squares(MeasureStd(fs[3].p)))
    ensures |r| == 4
  {
    CorrectWith(fs, z, Squares(MeasureStd(fs[3].p)))
  }

  function InitialAxes(z: Vector): (r: seq<Axis>)
    requires |z| == 4
    ensures |r| == 4
  {
    var q := Squares(InitialStd(z[3]));
    seq(4, i requires 0 <= i < 4 => Axis(z[i], 0.0, q[i], 0.0, q[i + 4]))
  }

  // ----- the dense filter stands for the small ones

  /** The entry of the dense covariance at (i, j). */
  ghost function Entry(fs: seq<Axis>, i: nat, j: nat): real
    requires |fs| == 4 && i < 8 && j < 8
  {
    if i == j then (if i < 4 then fs[i].a else fs[i - 4].c)
    else if j == i + 4 then fs[i].b
    else if i == j + 4 then fs[j].b
    else 0.0
  }

  ghost predicate Represents(mean: Vector, cov: Matrix, fs: seq<Axis>) {
    && |mean| == 8 && Dim(cov, 8, 8) && |fs| == 4
    && (forall i :: 0 <= i < 4 ==> mean[i] == fs[i].p && mean[i + 4] == fs[i].v)
    && (forall i, j :: 0 <= i < 8 && 0 <= j < 8 ==> cov[i][j] == Entry(fs, i, j))
  }

  lemma RepresentsSymmetric(mean: Vector, cov: Matrix, fs: seq<Axis>, i: nat, j: nat)
    requires Represents(mean, cov, fs) && i < 8 && j < 8
    ensures cov[i][j] == cov[j][i]
    ensures i % 4 != j % 4 ==> cov[i][j] == 0.0
  {
  }

  lemma MotionRow(f: Matrix, w: Vector, i: nat)
    requires IsMotion(f) && |w| == 8 && i < 8
    ensures Dot(f[i], w) == if i < 4 then w[i] + w[i + 4] else w[i]
  {
    if i < 4 { DotTwo(f[i], w, i, i + 4); } else { DotOne(f[i], w, i); }
  }

  lemma MotionColumn(f: Matrix, w: Vector, j: nat)
    requires IsMotion(f) && |w| == 8 && j < 8
    ensures Dot(w, Column(Transpose(f, 8), 8, j)) == if j < 4 then w[j] + w[j + 4] else w[j]
  {
    var col := Column(Transpose(f, 8), 8, j);
    assert forall l :: 0 <= l < 8 ==> col[l] == f[j][l];
    if j < 4 { DotTwo(w, col, j, j + 4); } else { DotOne(w, col, j); }
  }

  /** The motion matrix adds velocity rows and columns to position rows and columns. */
  lemma MotionCovariance(f: Matrix, cov: Matrix, h: real, i: nat, j: nat)
    requires IsMotion(f) && Dim(cov, 8, 8) && i < 8 && j < 8
    ensures DenseCovariance(f, cov, h)[i][j] ==
            (if i < 4 then cov[i][j] + cov[i + 4][j] else cov[i][j])
            + (if j < 4 then (if i < 4 then cov[i][j + 4] + cov[i + 4][j + 4] else cov[i][j + 4]) else 0.0)
            + (if i == j then Squares(MotionStd(h))[i] else 0.0)
  {
    var left := Times(f, cov, 8);
    MotionColumn(f, left[i], j);
    MotionRow(f, Column(cov, 8, j), i);
    if j < 4 { MotionRow(f, Column(cov, 8, j + 4), i); }
  }

  /** What the motion does to the entries of a represented covariance. */
  lemma PredictedEntry(cov: Matrix, fs: seq<Axis>, q: Vector, i: nat, j: nat)
    requires Dim(cov, 8, 8) && |fs| == 4 && |q| == 8 && i < 8 && j < 8
    requires forall k, l :: 0 <= k < 8 && 0 <= l < 8 ==> cov[k][l] == Entry(fs, k, l)
    ensures Entry(PredictWith(fs, q), i, j) ==
            (if i < 4 then cov[i][j] + cov[i + 4][j] else cov[i][j])
            + (if j < 4 then (if i < 4 then cov[i][j + 4] + cov[i + 4][j + 4] else cov[i][j + 4]) else 0.0)
            + (if i == j then q[i] else 0.0)
  {
    var r := PredictWith(fs, q);
    if i < 4 { assert cov[i + 4][j] == Entry(fs, i + 4, j); }
    if j < 4 { assert cov[i][j + 4] == Entry(fs, i, j + 4); }
    if i < 4 && j < 4 { assert cov[i + 4][j + 4] == Entry(fs, i + 4, j + 4); }
    assert cov[i][j] == Entry(fs, i, j);
  }

  lemma PredictedCovariance(f: Matrix, cov: Matrix, h: real, fs: seq<Axis>, q: Vector, i: nat, j: nat)
    requires IsMotion(f) && Dim(cov, 8, 8) && |fs| == 4 && i < 8 && j < 8 && q == Squares(MotionStd(h))
    requires forall k, l :: 0 <= k < 8 && 0 <= l < 8 ==> cov[k][l] == Entry(fs, k, l)
    ensures DenseCovariance(f, cov, h)[i][j] == Entry(PredictWith(fs, q), i, j)
  {
    MotionCovariance(f, cov, h, i, j);
    PredictedEntry(cov, fs, q, i, j);
  }

  lemma PredictedMean(f: Matrix, mean: Vector, i: nat)
    requires IsMotion(f) && |mean| == 8 && i < 8
    ensures Apply(f, mean)[i] == if i < 4 then mean[i] + mean[i + 4] else mean[i]
  {
    MotionRow(f, mean, i);
  }

  lemma Representation(mean: Vector, cov: Matrix, fs: seq<Axis>)
    requires |mean| == 8 && Dim(cov, 8, 8) && |fs| == 4
    requires forall i :: 0 <= i < 4 ==> mean[i] == fs[i].p && mean[i + 4] == fs[i].v
    requires forall i, j :: 0 <= i < 8 && 0 <= j < 8 ==> cov[i][j] == Entry(fs, i, j)
    ensures Represents(mean, cov, fs)
  {
  }

  /** Prediction: the dense step does to the four axes what the small step does to each. */
  lemma PredictRefines(f: Matrix, mean: Vector, cov: Matrix, fs: seq<Axis>)
    requires IsMotion(f) && Represents(mean, cov, fs)
    ensures Represents(Apply(f, mean), DenseCovariance(f, cov, mean[3]), PredictAxes(fs))
  {
    var q, mean', cov' := Squares(MotionStd(mean[3])), Apply(f, mean), DenseCovariance(f, cov, mean[3]);
    var fs' := PredictWith(fs, q);
    forall i | 0 <= i < 4
      ensures mean'[i] == fs'[i].p && mean'[i + 4] == fs'[i].v
    {
      PredictedMean(f, mean, i);
      PredictedMean(f, mean, i + 4);
    }
    forall i, j | 0 <= i < 8 && 0 <= j < 8
      ensures cov'[i][j] == Entry(fs', i, j)
    {
      PredictedCovariance(f, cov, mean[3], fs, q, i, j);
    }
    Representation(mean', cov', fs');
  }

  lemma UpdateRow(u: Matrix, w: Vector, i: nat)
    requires IsUpdate(u) && |w| == 8 && i < 4
    ensures Dot(u[i], w) == w[i]
  {
    DotOne(u[i], w, i);
  }

  lemma UpdateColumn(u: Matrix, w: Vector, j: nat)
    requires IsUpdate(u) && |w| == 8 && j < 4
    ensures Dot(w, Column(Transpose(u, 8), 4, j)) == w[j]
  {
    var col := Column(Transpose(u, 8), 4, j);
    assert forall l :: 0 <= l < 8 ==> col[l] == u[j][l];
    DotOne(w, col, j);
  }

  /** The innovation covariance is the position block plus the measurement noise. */
  lemma ProjectedEntry(u: Matrix, cov: Matrix, h: real, i: nat, j: nat)
    requires IsUpdate(u) && Dim(cov, 8, 8) && i < 4 && j < 4
    ensures ProjectedCovariance(u, cov, h)[i][j] == cov[i][j] + if i == j then Squares(MeasureStd(h))[i] else 0.0
  {
    UpdateColumn(u, Times(u, cov, 8)[i], j);
    UpdateRow(u, Column(cov, 8, j), i);
  }

  lemma TargetEntry(u: Matrix, cov: Matrix, i: nat, j: nat)
    requires IsUpdate(u) && Dim(cov, 8, 8) && i < 4 && j < 8
    ensures GainTarget(u, cov)[i][j] == cov[j][i]
  {
    UpdateColumn(u, cov[j], i);
  }

  /** A diagonal matrix with the given positive entries. */
  ghost predicate PositiveDiagonal(s: Matrix, d: Vector) {
    && Dim(s, 4, 4) && |d| == 4
    && (forall i :: 0 <= i < 4 ==> d[i] > 0.0)
    && (forall i, j :: 0 <= i < 4 && 0 <= j < 4 ==> s[i][j] == if i == j then d[i] else 0.0)
  }

  /** The diagonal of the innovation covariance. */
  function Innovations(fs: seq<Axis>, m: Vector): (d: Vector)
    requires |fs| == 4 && |m| == 4
    ensures |d| == 4 && forall i :: 0 <= i < 4 ==> d[i] == fs[i].a + m[i]
  {
    seq(4, i requires 0 <= i < 4 => fs[i].a + m[i])
  }

  lemma ScaledZero(w: real, h: real, p: real)
    requires w > 0.0 && p == w * h
    ensures p != 0.0 <==> h != 0.0
  {
    if h > 0.0 {
      PositiveProduct(w, h, p);
    } else if h < 0.0 {
      PositiveProduct(w, -h, -p);
    }
  }

  lemma NoiseSign(h: real, i: nat)
    requires i < 4
    ensures Squares(MeasureStd(h))[i] >= 0.0
    ensures Squares(MeasureStd(h))[i] > 0.0 <==> i == 2 || h != 0.0
  {
    ScaledZero(WEIGHT_POSITION, h, WEIGHT_POSITION * h);
  }

  /** Over a definite filter the innovation covariance is diagonal and positive: the solve is defined. */
  lemma InnovationPositive(u: Matrix, mean: Vector, cov: Matrix, fs: seq<Axis>)
    requires IsUpdate(u) && Represents(mean, cov, fs) && AllDefinite(fs)
    ensures PositiveDiagonal(ProjectedCovariance(u, cov, mean[3]), Innovations(fs, Squares(MeasureStd(mean[3]))))
    ensures Solvable(fs, Squares(MeasureStd(mean[3])))
  {
    var m := Squares(MeasureStd(mean[3]));
    forall i | 0 <= i < 4
      ensures m[i] >= 0.0
    {
      NoiseSign(mean[3], i);
    }
    forall i, j | 0 <= i < 4 && 0 <= j < 4
      ensures ProjectedCovariance(u, cov, mean[3])[i][j] == if i == j then fs[i].a + m[i] else 0.0
    {
      ProjectedEntry(u, cov, mean[3], i, j);
      assert cov[i][j] == Entry(fs, i, j);
    }
  }

  lemma DiagonalTimes(s: Matrix, d: Vector, x: Matrix, i: nat, j: nat)
    requires PositiveDiagonal(s, d) && Dim(x, 4, 8) && i < 4 && j < 8
    ensures Times(s, x, 8)[i][j] == d[i] * x[i][j]
  {
    DotOne(s[i], Column(x, 8, j), i);
  }

  lemma Cancel(d: real, x: real, y: real, b: real)
    requires d > 0.0 && b == d * x && b == d * y
    ensures x == y
  {
    assert d * (x - y) == 0.0;
  }

  lemma Quotient(d: real, x: real, b: real)
    requires d > 0.0 && b == d * x
    ensures x == b / d
  {
    Cancel(d, x, b / d, b);
  }

  /** In a solution of the equation for the gain, S x has the entries of the covariance. */
  lemma SolutionEntry(u: Matrix, cov: Matrix, h: real, x: Matrix, i: nat, j: nat)
    requires IsUpdate(u) && Dim(cov, 8, 8) && Solves(u, cov, h, x) && i < 4 && j < 8
    ensures Times(ProjectedCovariance(u, cov, h), x, 8)[i][j] == cov[j][i]
  {
    TargetEntry(u, cov, i, j);
  }

  lemma EqualMatrices(a: Matrix, b: Matrix)
    requires Dim(a, 4, 8) && Dim(b, 4, 8)
    requires forall i, j :: 0 <= i < 4 && 0 <= j < 8 ==> a[i][j] == b[i][j]
    ensures a == b
  {
    forall i | 0 <= i < 4 ensures a[i] == b[i] {
      assert forall j :: 0 <= j < 8 ==> a[i][j] == b[i][j];
    }
  }

  lemma SameGainEntry(s: Matrix, d: Vector, x: Matrix, y: Matrix, i: nat, j: nat)
    requires PositiveDiagonal(s, d) && Dim(x, 4, 8) && Dim(y, 4, 8) && i < 4 && j < 8
    requires Times(s, x, 8) == Times(s, y, 8)
    ensures x[i][j] == y[i][j]
  {
    DiagonalTimes(s, d, x, i, j);
    DiagonalTimes(s, d, y, i, j);
    Cancel(d[i], x[i][j], y[i][j], Times(s, x, 8)[i][j]);
  }

  /** Over a definite filter the equation for the gain has at most one solution. */
  lemma GainUnique(u: Matrix, mean: Vector, cov: Matrix, fs: seq<Axis>, x: Matrix, y: Matrix)
    requires IsUpdate(u) && Represents(mean, cov, fs) && AllDefinite(fs)
    requires Solves(u, cov, mean[3], x) && Solves(u, cov, mean[3], y)
    ensures x == y
  {
    var s, d := ProjectedCovariance(u, cov, mean[3]), Innovations(fs, Squares(MeasureStd(mean[3])));
    InnovationPositive(u, mean, cov, fs);
    forall i, j | 0 <= i < 4 && 0 <= j < 8
      ensures x[i][j] == y[i][j]
    {
      SameGainEntry(s, d, x, y, i, j);
    }
    EqualMatrices(x, y);
  }

  function GainFrom(cov: Matrix, d: Vector): (x: Matrix)
    requires Dim(cov, 8, 8) && |d| == 4 && forall i :: 0 <= i < 4 ==> d[i] > 0.0
    ensures Dim(x, 4, 8) && forall i, j :: 0 <= i < 4 && 0 <= j < 8 ==> x[i][j] == cov[j][i] / d[i]
  {
    seq(4, i requires 0 <= i < 4 => seq(8, j requires 0 <= j < 8 => cov[j][i] / d[i]))
  }

  lemma TimesQuotient(d: real, b: real, x: real)
    requires d > 0.0 && x == b / d
    ensures d * x == b
  {
  }

  lemma GainFromEntry(s: Matrix, d: Vector, cov: Matrix, i: nat, j: nat)
    requires PositiveDiagonal(s, d) && Dim(cov, 8, 8) && i < 4 && j < 8
    ensures Times(s, GainFrom(cov, d), 8)[i][j] == cov[j][i]
  {
    DiagonalTimes(s, d, GainFrom(cov, d), i, j);
    TimesQuotient(d[i], cov[j][i], GainFrom(cov, d)[i][j]);
  }

  /** Over a definite filter the equation for the gain has a solution. */
  lemma GainExists(u: Matrix, mean: Vector, cov: Matrix, fs: seq<Axis>) returns (x: Matrix)
    requires IsUpdate(u) && Represents(mean, cov, fs) && AllDefinite(fs)
    ensures Solves(u, cov, mean[3], x)
  {
    var s, d := ProjectedCovariance(u, cov, mean[3]), Innovations(fs, Squares(MeasureStd(mean[3])));
    InnovationPositive(u, mean, cov, fs);
    x := GainFrom(cov, d);
    forall i, j | 0 <= i < 4 && 0 <= j < 8
      ensures Times(s, x, 8)[i][j] == GainTarget(u, cov)[i][j]
    {
      GainFromEntry(s, d, cov, i, j);
      TargetEntry(u, cov, i, j);
    }
    EqualMatrices(Times(s, x, 8), GainTarget(u, cov));
  }

  /** What a solution says entry by entry: S x = B, where S is diagonal and B holds covariances. */
  ghost predicate IsGain(s: Matrix, d: Vector, cov: Matrix, x: Matrix) {
    && PositiveDiagonal(s, d) && Dim(cov, 8, 8) && Dim(x, 4, 8)
    && forall i, j :: 0 <= i < 4 && 0 <= j < 8 ==> Times(s, x, 8)[i][j] == cov[j][i]
  }

  /** A gain acts on the two coordinates of its own axis only. */
  ghost predicate OwnAxisOnly(x: Matrix)
    requires Dim(x, 4, 8)
  {
    forall l, i :: 0 <= l < 4 && 0 <= i < 8 && l != i % 4 ==> x[l][i] == 0.0
  }

  lemma GainOwnAxis(mean: Vector, cov: Matrix, fs: seq<Axis>, s: Matrix, d: Vector, x: Matrix)
    requires Represents(mean, cov, fs) && IsGain(s, d, cov, x)
    ensures OwnAxisOnly(x)
  {
    forall l, i | 0 <= l < 4 && 0 <= i < 8 && l != i % 4
      ensures x[l][i] == 0.0
    {
      DiagonalTimes(s, d, x, l, i);
      assert Times(s, x, 8)[l][i] == cov[i][l] == Entry(fs, i, l) == 0.0;
      Cancel(d[l], x[l][i], 0.0, 0.0);
    }
  }

  /** K S is the position block of columns of the covariance. */
  lemma GainTimesInnovation(s: Matrix, d: Vector, cov: Matrix, x: Matrix, i: nat, l: nat)
    requires IsGain(s, d, cov, x) && i < 8 && l < 4
    ensures Times(Transpose(x, 8), s, 4)[i][l] == cov[i][l]
  {
    DotOne(Transpose(x, 8)[i], Column(s, 4, l), l);
    DiagonalTimes(s, d, x, l, i);
  }

  /** What the measurement explains of the covariance: K S Kt. */
  function Explained(s: Matrix, x: Matrix): (e: Matrix)
    requires Dim(s, 4, 4) && Dim(x, 4, 8)
    ensures Dim(e, 8, 8)
  {
    Times(Times(Transpose(x, 8), s, 4), x, 8)
  }

  /** An entry of K S Kt has a single contribution, from the axis `l` both coordinates belong to. */
  lemma ExplainedEntry(s: Matrix, d: Vector, cov: Matrix, x: Matrix, l: nat, i: nat, j: nat)
    requires IsGain(s, d, cov, x) && OwnAxisOnly(x) && l < 4 && j < 8 && (i == l || i == l + 4)
    requires forall n :: 0 <= n < 4 && n != l ==> cov[i][n] == 0.0
    ensures Explained(s, x)[i][j] == if j == l || j == l + 4 then cov[i][l] * x[l][j] else 0.0
  {
    hide Dot;
    var ks, col := Times(Transpose(x, 8), s, 4), Column(x, 8, j);
    forall n | 0 <= n < 4
      ensures ks[i][n] == cov[i][n]
      ensures n != j % 4 ==> col[n] == 0.0
    {
      GainTimesInnovation(s, d, cov, x, i, n);
    }
    if j == l || j == l + 4 {
      DotOne(ks[i], col, l);
    } else {
      DotZero(ks[i], col);
    }
  }

  lemma OffAxisZero(mean: Vector, cov: Matrix, fs: seq<Axis>, l: nat, i: nat)
    requires Represents(mean, cov, fs) && l < 4 && (i == l || i == l + 4)
    ensures forall n :: 0 <= n < 4 && n != l ==> cov[i][n] == 0.0
    ensures cov[l][l] == fs[l].a && cov[l + 4][l] == fs[l].b
  {
    assert forall n :: 0 <= n < 4 ==> cov[i][n] == Entry(fs, i, n);
    assert cov[l][l] == Entry(fs, l, l) && cov[l + 4][l] == Entry(fs, l + 4, l);
  }

  lemma SymmetricShare(s: real, a: real, b: real, g: real, k: real)
    requires a == s * g && b == s * k
    ensures b * g == a * k
  {
  }

  /** The four entries of K S Kt that belong to one axis. */
  lemma AxisExplained(mean: Vector, cov: Matrix, fs: seq<Axis>, s: Matrix, d: Vector, x: Matrix, l: nat)
    requires Represents(mean, cov, fs) && IsGain(s, d, cov, x) && OwnAxisOnly(x) && l < 4
    ensures var e, g, k := Explained(s, x), x[l][l], x[l][l + 4];
            e[l][l] == fs[l].a * g && e[l][l + 4] == fs[l].a * k && e[l + 4][l] == fs[l].b * g &&
            e[l + 4][l + 4] == fs[l].b * k
  {
    OffAxisZero(mean, cov, fs, l, l);
    OffAxisZero(mean, cov, fs, l, l + 4);
    ExplainedEntry(s, d, cov, x, l, l, l);
    ExplainedEntry(s, d, cov, x, l, l, l + 4);
    ExplainedEntry(s, d, cov, x, l, l + 4, l);
    ExplainedEntry(s, d, cov, x, l, l + 4, l + 4);
  }

  /** The four entries of one axis after the correction. */
  lemma AxisReduced(mean: Vector, cov: Matrix, fs: seq<Axis>, s: Matrix, d: Vector, x: Matrix, l: nat, f: Axis, z: real)
    requires Represents(mean, cov, fs) && IsGain(s, d, cov, x) && OwnAxisOnly(x) && l < 4
    requires f == CorrectBy(fs[l], z, x[l][l], x[l][l + 4])
    ensures f.a == cov[l][l] - Explained(s, x)[l][l] && f.b == cov[l][l + 4] - Explained(s, x)[l][l + 4]
    ensures f.b == cov[l + 4][l] - Explained(s, x)[l + 4][l] && f.c == cov[l + 4][l + 4] - Explained(s, x)[l + 4][l + 4]
  {
    AxisExplained(mean, cov, fs, s, d, x, l);
    DiagonalTimes(s, d, x, l, l);
    DiagonalTimes(s, d, x, l, l + 4);
    assert Times(s, x, 8)[l][l] == cov[l][l] == fs[l].a;
    assert Times(s, x, 8)[l][l + 4] == cov[l + 4][l] == fs[l].b;
    SymmetricShare(d[l], fs[l].a, fs[l].b, x[l][l], x[l][l + 4]);
  }

  /** The small corrections with the gains read from the solution. */
  ghost predicate CorrectedBy(fs: seq<Axis>, z: Vector, x: Matrix, fs': seq<Axis>)
    requires |fs| == 4 && |z| == 4 && Dim(x, 4, 8)
  {
    |fs'| == 4 && forall l :: 0 <= l < 4 ==> fs'[l] == CorrectBy(fs[l], z[l], x[l][l], x[l][l + 4])
  }

  lemma CorrectedEntry(mean: Vector, cov: Matrix, fs: seq<Axis>, s: Matrix, d: Vector, x: Matrix, z: Vector,
                       fs': seq<Axis>, i: nat, j: nat)
    requires Represents(mean, cov, fs) && IsGain(s, d, cov, x) && OwnAxisOnly(x) && |z| == 4 &&
             CorrectedBy(fs, z, x, fs')
    requires i < 8 && j < 8
    ensures cov[i][j] - Explained(s, x)[i][j] == Entry(fs', i, j)
  {
    hide Explained;
    var l := i % 4;
    if l == j % 4 {
      AxisReduced(mean, cov, fs, s, d, x, l, fs'[l], z[l]);
    } else {
      OffAxisZero(mean, cov, fs, l, i);
      ExplainedEntry(s, d, cov, x, l, i, j);
      assert cov[i][j] == Entry(fs, i, j) == 0.0;
    }
  }

  lemma CorrectedEntries(mean: Vector, cov: Matrix, fs: seq<Axis>, s: Matrix, d: Vector, x: Matrix, z: Vector,
                         fs': seq<Axis>)
    requires Represents(mean, cov, fs) && IsGain(s, d, cov, x) && OwnAxisOnly(x) && |z| == 4 &&
             CorrectedBy(fs, z, x, fs')
    ensures forall i, j :: 0 <= i < 8 && 0 <= j < 8 ==> cov[i][j] - Explained(s, x)[i][j] == Entry(fs', i, j)
  {
    forall i, j | 0 <= i < 8 && 0 <= j < 8
      ensures cov[i][j] - Explained(s, x)[i][j] == Entry(fs', i, j)
    {
      CorrectedEntry(mean, cov, fs, s, d, x, z, fs', i, j);
    }
  }

  /** The corrected mean, entry by entry. */
  lemma CorrectedMeanEntry(u: Matrix, mean: Vector, z: Vector, x: Matrix, l: nat, i: nat)
    requires IsUpdate(u) && |mean| == 8 && |z| == 4 && Dim(x, 4, 8) && OwnAxisOnly(x) && l < 4 && (i == l || i == l + 4)
    ensures CorrectedMean(u, mean, z, x)[i] == mean[i] + (z[l] - mean[l]) * x[l][i]
  {
    hide Dot;
    UpdateRow(u, mean, l);
    DotOne(Difference(z, Apply(u, mean)), Column(x, 8, i), l);
  }

  lemma CorrectedMeans(u: Matrix, mean: Vector, fs: seq<Axis>, z: Vector, x: Matrix, f: Axis, l: nat)
    requires IsUpdate(u) && |mean| == 8 && |z| == 4 && |fs| == 4 && Dim(x, 4, 8) && OwnAxisOnly(x) && l < 4
    requires mean[l] == fs[l].p && mean[l + 4] == fs[l].v && f == CorrectBy(fs[l], z[l], x[l][l], x[l][l + 4])
    ensures CorrectedMean(u, mean, z, x)[l] == f.p && CorrectedMean(u, mean, z, x)[l + 4] == f.v
  {
    CorrectedMeanEntry(u, mean, z, x, l, l);
    CorrectedMeanEntry(u, mean, z, x, l, l + 4);
  }

  /** The gains of the small filters stand in the solution. */
  lemma GainsOfAxis(mean: Vector, cov: Matrix, fs: seq<Axis>, s: Matrix, d: Vector, x: Matrix, l: nat)
    requires Represents(mean, cov, fs) && IsGain(s, d, cov, x) && l < 4
    ensures x[l][l] == fs[l].a / d[l] && x[l][l + 4] == fs[l].b / d[l]
  {
    DiagonalTimes(s, d, x, l, l);
    DiagonalTimes(s, d, x, l, l + 4);
    assert cov[l][l] == Entry(fs, l, l) && cov[l + 4][l] == Entry(fs, l + 4, l);
    Quotient(d[l], x[l][l], fs[l].a);
    Quotient(d[l], x[l][l + 4], fs[l].b);
  }

  lemma CorrectedWithGains(mean: Vector, cov: Matrix, fs: seq<Axis>, s: Matrix, m: Vector, x: Matrix, z: Vector)
    requires Represents(mean, cov, fs) && |m| == 4 && |z| == 4 && Solvable(fs, m) &&
             IsGain(s, Innovations(fs, m), cov, x)
    ensures CorrectedBy(fs, z, x, CorrectWith(fs, z, m))
  {
    forall l | 0 <= l < 4
      ensures CorrectWith(fs, z, m)[l] == CorrectBy(fs[l], z[l], x[l][l], x[l][l + 4])
    {
      GainsOfAxis(mean, cov, fs, s, Innovations(fs, m), x, l);
    }
  }

  /** Correction: whatever solution the solver returns, the dense step does to the four axes what
      the small step does to each. */
  lemma CorrectRefines(u: Matrix, mean: Vector, cov: Matrix, fs: seq<Axis>, z: Vector, x: Matrix)
    requires IsUpdate(u) && Represents(mean, cov, fs) && AllDefinite(fs) && |z| == 4
    requires Solves(u, cov, mean[3], x)
    ensures Solvable(fs, Squares(MeasureStd(fs[3].p)))
    ensures Represents(CorrectedMean(u, mean, z, x), CorrectedCovariance(u, cov, mean[3], x), CorrectAxes(fs, z))
  {
    var m := Squares(MeasureStd(mean[3]));
    var s, d := ProjectedCovariance(u, cov, mean[3]), Innovations(fs, m);
    InnovationPositive(u, mean, cov, fs);
    forall i, j | 0 <= i < 4 && 0 <= j < 8
      ensures Times(s, x, 8)[i][j] == cov[j][i]
    {
      SolutionEntry(u, cov, mean[3], x, i, j);
    }
    GainOwnAxis(mean, cov, fs, s, d, x);
    CorrectedWithGains(mean, cov, fs, s, m, x, z);
    var fs' := CorrectWith(fs, z, m);
    CorrectedEntries(mean, cov, fs, s, d, x, z, fs');
    forall l | 0 <= l < 4
      ensures CorrectedMean(u, mean, z, x)[l] == fs'[l].p && CorrectedMean(u, mean, z, x)[l + 4] == fs'[l].v
    {
      CorrectedMeans(u, mean, fs, z, x, fs'[l], l);
    }
    Representation(CorrectedMean(u, mean, z, x), CorrectedCovariance(u, cov, mean[3], x), fs');
  }
}
