/** Whole runs of the box filter: definiteness, and the dense filter as four small ones. */
module KalmanRuns {
  import opened DenseMatrix
  import opened Kalman
  import opened KalmanForm

  // ----- definiteness, and whole runs

  /** A definite block has a positive velocity variance and a positive predicted position variance. */
  lemma DefiniteSums(a: real, b: real, c: real, bb: real, ac: real)
    requires a > 0.0 && bb == b * b && ac == a * c && ac - bb > 0.0
    ensures c > 0.0 && a + b + (b + c) > 0.0
  {
    SquareSign(b, bb);
    PositiveFactor(a, c, ac);
    var t, w := a + b + (b + c), a + b;
    var ww := w * w;
    SquareSign(w, ww);
    assert a * t == ww + (ac - bb);
    PositiveFactor(a, t, ww + (ac - bb));
  }

  lemma PredictedDeterminant(a: real, b: real, c: real, q: real, r: real, t: real)
    requires t == a + b + (b + c)
    ensures (t + q) * (c + r) - (b + c) * (b + c) == (a * c - b * b) + r * t + q * (c + r)
  {
    calc {
      (t + q) * (c + r);
      t * c + t * r + q * (c + r);
    }
    assert t * c == a * c + b * c + b * c + c * c;
    assert (b + c) * (b + c) == b * b + b * c + b * c + c * c;
  }

  lemma DefinitePredict(f: Axis, q: real, r: real)
    requires Definite(f) && q >= 0.0 && r >= 0.0
    ensures Definite(SmallPredict(f, q, r))
  {
    var t := f.a + f.b + (f.b + f.c);
    DefiniteSums(f.a, f.b, f.c, f.b * f.b, f.a * f.c);
    PredictedDeterminant(f.a, f.b, f.c, q, r, t);
    NonNegativeProduct(r, t, r * t);
    NonNegativeProduct(q, f.c + r, q * (f.c + r));
  }

  /** With noise `r` the corrected block keeps its determinant up to the factor r / (a + r). */
  lemma CorrectedDeterminant(a: real, b: real, c: real, r: real, g: real, k: real)
    requires a == (a + r) * g && b == (a + r) * k
    ensures a - a * g == r * g && b - a * k == r * k
    ensures (a - a * g) * (c - b * k) - (b - a * k) * (b - a * k) == r * (g * c - k * b)
    ensures (a + r) * (g * c - k * b) == a * c - b * b
  {
    assert a - a * g == r * g;
    assert b - a * k == r * k;
    SymmetricShare(a + r, a, b, g, k);
    var bk := b * k;
    assert g * bk == a * k * k by { assert g * bk == b * g * k; }
    assert (r * g) * (c - bk) == r * (g * c - g * bk);
    assert (r * k) * (r * k) == r * (r * k * k);
    assert g * bk + r * k * k == k * b by {
      assert a * k * k + r * k * k == (a + r) * k * k;
      assert (a + r) * k * k == b * k;
    }
    assert (a + r) * (g * c) == a * c;
    assert (a + r) * (k * b) == b * b;
  }

  /** A correction keeps a definite axis definite exactly when the measurement is noisy. */
  lemma DefiniteCorrect(f: Axis, z: real, r: real)
    requires Definite(f) && r >= 0.0
    ensures f.a + r != 0.0 && (Definite(SmallCorrect(f, z, r)) <==> r > 0.0)
  {
    var s := f.a + r;
    var g, k := f.a / s, f.b / s;
    TimesQuotient(s, f.a, g);
    TimesQuotient(s, f.b, k);
    CorrectedDeterminant(f.a, f.b, f.c, r, g, k);
    if r > 0.0 {
      PositiveFactor(s, g, f.a);
      PositiveProduct(r, g, r * g);
      PositiveFactor(s, g * f.c - k * f.b, f.a * f.c - f.b * f.b);
      PositiveProduct(r, g * f.c - k * f.b, r * (g * f.c - k * f.b));
    } else {
      assert r * g == 0.0;
    }
  }

  lemma MotionNoiseSign(h: real, i: nat)
    requires i < 8
    ensures Squares(MotionStd(h))[i] >= 0.0
  {
  }

  lemma PredictKeepsDefinite(fs: seq<Axis>)
    requires AllDefinite(fs)
    ensures AllDefinite(PredictAxes(fs))
  {
    var q := Squares(MotionStd(fs[3].p));
    forall i | 0 <= i < 4
      ensures Definite(PredictWith(fs, q)[i])
    {
      MotionNoiseSign(fs[3].p, i);
      MotionNoiseSign(fs[3].p, i + 4);
      DefinitePredict(fs[i], q[i], q[i + 4]);
    }
  }

  /** A correction keeps the filter definite if and only if the height estimate is not zero. */
  lemma CorrectKeepsDefinite(fs: seq<Axis>, z: Vector)
    requires AllDefinite(fs) && |z| == 4
    ensures Solvable(fs, Squares(MeasureStd(fs[3].p)))
    ensures AllDefinite(CorrectAxes(fs, z)) <==> fs[3].p != 0.0
  {
    var m := Squares(MeasureStd(fs[3].p));
    forall i | 0 <= i < 4
      ensures fs[i].a + m[i] != 0.0
      ensures Definite(SmallCorrect(fs[i], z[i], m[i])) <==> i == 2 || fs[3].p != 0.0
    {
      NoiseSign(fs[3].p, i);
      DefiniteCorrect(fs[i], z[i], m[i]);
    }
    assert CorrectWith(fs, z, m)[0] == SmallCorrect(fs[0], z[0], m[0]);
  }

  /** A new filter is definite if and only if the measured height is not zero. */
  lemma InitialDefinite(z: Vector)
    requires |z| == 4
    ensures AllDefinite(InitialAxes(z)) <==> z[3] != 0.0
  {
    var q := Squares(InitialStd(z[3]));
    ScaledZero(2.0 * WEIGHT_POSITION, z[3], 2.0 * WEIGHT_POSITION * z[3]);
    ScaledZero(10.0 * WEIGHT_VELOCITY, z[3], 10.0 * WEIGHT_VELOCITY * z[3]);
    forall i | 0 <= i < 4
      ensures Definite(InitialAxes(z)[i]) <==> i == 2 || z[3] != 0.0
    {
      DefiniteUncorrelated(InitialAxes(z)[i], q[i], q[i + 4], q[i] * q[i + 4]);
    }
    assert AllDefinite(InitialAxes(z)) ==> Definite(InitialAxes(z)[0]);
  }

  lemma DefiniteUncorrelated(f: Axis, a: real, c: real, ac: real)
    requires f.a == a && f.b == 0.0 && f.c == c && a >= 0.0 && c >= 0.0 && ac == a * c
    ensures Definite(f) <==> a > 0.0 && c > 0.0
  {
    if a > 0.0 && c > 0.0 { PositiveProduct(a, c, ac); }
    if Definite(f) { PositiveFactor(a, c, ac); }
  }

  // ----- runs

  /** A prediction of a track that is not in state Tracked first clears the velocity of its height. */
  datatype Event = Predict(still: bool) | Correct(z: Vector)

  datatype State = State(mean: Vector, cov: Matrix)

  ghost predicate Measured(e: Event) { e.Correct? ==> |e.z| == 4 }

  /** A step of the dense filter; a correction may use any solution of the equation for the gain. */
  ghost predicate DenseStep(f: Matrix, u: Matrix, e: Event, s: State, s': State)
    requires IsMotion(f) && IsUpdate(u) && Measured(e)
  {
    && |s.mean| == 8 && Dim(s.cov, 8, 8)
    && match e
       case Predict(still) =>
         var mean := if still then s.mean[7 := 0.0] else s.mean;
         s' == State(Apply(f, mean), DenseCovariance(f, s.cov, mean[3]))
       case Correct(z) => exists x :: CorrectedWith(u, z, s, x, s')
  }

  ghost predicate CorrectedWith(u: Matrix, z: Vector, s: State, x: Matrix, s': State)
    requires IsUpdate(u) && |z| == 4 && |s.mean| == 8 && Dim(s.cov, 8, 8)
  {
    && Solves(u, s.cov, s.mean[3], x)
    && s' == State(CorrectedMean(u, s.mean, z, x), CorrectedCovariance(u, s.cov, s.mean[3], x))
  }

  ghost predicate HasHeight(s: State) { |s.mean| == 8 && s.mean[3] != 0.0 }

  function HeldStill(fs: seq<Axis>): (r: seq<Axis>)
    requires |fs| == 4
    ensures |r| == 4
  {
    fs[3 := fs[3].(v := 0.0)]
  }

  ghost predicate SmallStep(e: Event, fs: seq<Axis>, fs': seq<Axis>)
    requires Measured(e)
  {
    && |fs| == 4
    && match e
       case Predict(still) => fs' == PredictAxes(if still then HeldStill(fs) else fs)
       case Correct(z) => Solvable(fs, Squares(MeasureStd(fs[3].p))) && fs' == CorrectAxes(fs, z)
  }

  ghost predicate DenseRun(f: Matrix, u: Matrix, es: seq<Event>, ss: seq<State>)
    requires IsMotion(f) && IsUpdate(u)
  {
    && |ss| == |es| + 1
    && forall k :: 0 <= k < |es| ==> Measured(es[k]) && DenseStep(f, u, es[k], ss[k], ss[k + 1])
  }

  lemma StillRepresents(mean: Vector, cov: Matrix, fs: seq<Axis>)
    requires Represents(mean, cov, fs)
    ensures Represents(mean[7 := 0.0], cov, HeldStill(fs)) && (AllDefinite(fs) ==> AllDefinite(HeldStill(fs)))
  {
  }

  /** One step of the dense filter from a represented, definite state. */
  lemma StepRefines(f: Matrix, u: Matrix, e: Event, s: State, s': State, fs: seq<Axis>) returns (fs': seq<Axis>)
    requires IsMotion(f) && IsUpdate(u) && Measured(e) && DenseStep(f, u, e, s, s')
    requires Represents(s.mean, s.cov, fs) && AllDefinite(fs) && (e.Correct? ==> HasHeight(s))
    ensures SmallStep(e, fs, fs') && Represents(s'.mean, s'.cov, fs') && AllDefinite(fs')
  {
    match e {
      case Predict(still) =>
        var mean, held := if still then s.mean[7 := 0.0] else s.mean, if still then HeldStill(fs) else fs;
        StillRepresents(s.mean, s.cov, fs);
        PredictRefines(f, mean, s.cov, held);
        PredictKeepsDefinite(held);
        fs' := PredictAxes(held);
      case Correct(z) =>
        var x :| CorrectedWith(u, z, s, x, s');
        CorrectRefines(u, s.mean, s.cov, fs, z, x);
        CorrectKeepsDefinite(fs, z);
        fs' := CorrectAxes(fs, z);
    }
  }

  /** Over every run whose height estimate is not zero at the start and at each correction, the dense
      filter is four small filters, and all of them stay definite. */
  lemma {:induction false} RunRefines(f: Matrix, u: Matrix, z: Vector, es: seq<Event>, ss: seq<State>)
    returns (small: seq<seq<Axis>>)
    requires IsMotion(f) && IsUpdate(u) && DenseRun(f, u, es, ss)
    requires |z| == 4 && z[3] != 0.0 && Represents(ss[0].mean, ss[0].cov, InitialAxes(z))
    requires forall k :: 0 <= k < |es| && es[k].Correct? ==> HasHeight(ss[k])
    ensures |small| == |ss| && small[0] == InitialAxes(z)
    ensures forall k :: 0 <= k < |ss| ==> Represents(ss[k].mean, ss[k].cov, small[k]) && AllDefinite(small[k])
    ensures forall k :: 0 <= k < |ss| ==> PositiveDefinite(ss[k].cov)
    ensures forall k :: 0 <= k < |es| ==> SmallStep(es[k], small[k], small[k + 1])
  {
    hide Represents, AllDefinite, SmallStep, DenseStep, PositiveDefinite;
    if es == [] {
      InitialDefinite(z);
      DefiniteExactly(ss[0].mean, ss[0].cov, InitialAxes(z));
      small := [InitialAxes(z)];
    } else {
      var last := |es| - 1;
      var init := RunRefines(f, u, z, es[..last], ss[..|es|]);
      var next := StepRefines(f, u, es[last], ss[last], ss[last + 1], init[last]);
      DefiniteExactly(ss[last + 1].mean, ss[last + 1].cov, next);
      small := init + [next];
    }
  }

  /** Every step of the small filters is one of the dense filter. */
  lemma StepLifts(f: Matrix, u: Matrix, e: Event, s: State, fs: seq<Axis>, fs': seq<Axis>) returns (s': State)
    requires IsMotion(f) && IsUpdate(u) && Measured(e) && SmallStep(e, fs, fs')
    requires Represents(s.mean, s.cov, fs) && AllDefinite(fs)
    ensures DenseStep(f, u, e, s, s') && Represents(s'.mean, s'.cov, fs')
  {
    match e {
      case Predict(still) =>
        var mean, held := if still then s.mean[7 := 0.0] else s.mean, if still then HeldStill(fs) else fs;
        StillRepresents(s.mean, s.cov, fs);
        PredictRefines(f, mean, s.cov, held);
        s' := State(Apply(f, mean), DenseCovariance(f, s.cov, mean[3]));
      case Correct(z) =>
        var x := GainExists(u, s.mean, s.cov, fs);
        CorrectRefines(u, s.mean, s.cov, fs, z, x);
        s' := State(CorrectedMean(u, s.mean, z, x), CorrectedCovariance(u, s.cov, s.mean[3], x));
        assert CorrectedWith(u, z, s, x, s');
    }
  }

  // ----- the filter object

  class KalmanFilter {
    var motion_mat: Matrix
    var update_mat: Matrix

    ghost predicate Valid()
      reads this
    {
      IsMotion(motion_mat) && IsUpdate(update_mat)
    }

    constructor ()
      ensures Valid()
    {
      var motion := Diagonal(seq(8, _ => 1.0));
      for i := 0 to 4
        invariant Dim(motion, 8, 8)
        invariant forall k, j :: 0 <= k < 8 && 0 <= j < 8 ==>
          motion[k][j] == if j == k || (k < i && j == k + 4) then 1.0 else 0.0
      {
        motion := motion[i := motion[i][4 + i := 1.0]];
      }
      motion_mat := motion;
      update_mat := Diagonal(seq(8, _ => 1.0))[..4];
    }

    method Initiate(measurement: Vector) returns (mean: Vector, cov: Matrix)
      requires |measurement| == 4
      ensures Represents(mean, cov, InitialAxes(measurement))
    {
      mean := [];
      for i := 0 to 8
        invariant |mean| == i && forall k :: 0 <= k < i ==> mean[k] == if k < 4 then measurement[k] else 0.0
      {
        mean := mean + [if i < 4 then measurement[i] else 0.0];
      }
      cov := Diagonal(Squares(InitialStd(measurement[3])));
    }

    method Predict(mean: Vector, cov: Matrix) returns (mean': Vector, cov': Matrix)
      requires Valid() && |mean| == 8 && Dim(cov, 8, 8)
      ensures DenseStep(motion_mat, update_mat, Event.Predict(false), State(mean, cov), State(mean', cov'))
    {
      var motion_cov := Diagonal(Squares(MotionStd(mean[3])));
      mean' := Apply(motion_mat, mean);
      cov' := Times(Times(motion_mat, cov, 8), Transpose(motion_mat, 8), 8);
      cov' := Plus(cov', motion_cov, 8);
    }

    /** The step of `multi_predict` for one track. */
    method MultiPredict(mean: Vector, cov: Matrix, tracked: bool) returns (mean': Vector, cov': Matrix)
      requires Valid() && |mean| == 8 && Dim(cov, 8, 8)
      ensures DenseStep(motion_mat, update_mat, Event.Predict(!tracked), State(mean, cov), State(mean', cov'))
    {
      var m := mean;
      if !tracked {
        m := m[7 := 0.0];
      }
      mean', cov' := Predict(m, cov);
    }

    method Project(mean: Vector, cov: Matrix) returns (m: Vector, s: Matrix)
      requires Valid() && |mean| == 8 && Dim(cov, 8, 8)
      ensures m == Apply(update_mat, mean) && s == ProjectedCovariance(update_mat, cov, mean[3])
    {
      m := Apply(update_mat, mean);
      s := Times(Times(update_mat, cov, 8), Transpose(update_mat, 8), 4);
      s := Plus(s, Diagonal(Squares(MeasureStd(mean[3]))), 4);
    }

    /** The linear solver is a parameter: `solution` is what it returns for S x = B. */
    method Update(mean: Vector, cov: Matrix, measurement: Vector, solution: Matrix)
      returns (mean': Vector, cov': Matrix)
      requires Valid() && |mean| == 8 && Dim(cov, 8, 8) && |measurement| == 4
      requires Solves(update_mat, cov, mean[3], solution)
      ensures DenseStep(motion_mat, update_mat, Correct(measurement), State(mean, cov), State(mean', cov'))
    {
      var projected_mean, projected_cov := Project(mean, cov);
      var kalman_gain := Transpose(solution, 8);
      var innovation := Difference(measurement, projected_mean);
      var tmp := Times([innovation], solution, 8);
      mean' := Sum(mean, tmp[0]);
      cov' := Minus(cov, Times(Times(kalman_gain, projected_cov, 4), solution, 8), 8);
      assert CorrectedWith(update_mat, measurement, State(mean, cov), solution, State(mean', cov'));
    }
  }
}
