/** The numbers of the box filter: how far the first frames of a track move it, on each of its four axes. */
module KalmanGains {
  import opened DenseMatrix
  import opened Kalman
  import opened KalmanForm
  import opened KalmanRuns

  // ----- noise

  lemma ScaledSquare(w: real, h: real, hh: real, c: real)
    requires hh == h * h && c == w * w
    ensures Square(w * h) == c * hh
  {
    assert (w * h) * (w * h) == (w * w) * (h * h);
  }

  /** On the position axes all noise is a fixed multiple of the squared height; on the ratio it is constant. */
  lemma InitialNoise(h: real, hh: real)
    requires hh == h * h
    ensures var q := Squares(InitialStd(h));
            && q[0] == q[1] == q[3] == hh / 100.0 && q[4] == q[5] == q[7] == hh / 256.0
            && q[2] == 0.0001 && q[6] == 0.0000000001
  {
    ScaledSquare(0.1, h, hh, 0.01);
    ScaledSquare(0.0625, h, hh, 1.0 / 256.0);
    assert 2.0 * WEIGHT_POSITION * h == 0.1 * h && 10.0 * WEIGHT_VELOCITY * h == 0.0625 * h;
  }

  lemma MotionNoise(h: real, hh: real)
    requires hh == h * h
    ensures var q := Squares(MotionStd(h));
            && q[0] == q[1] == q[3] == hh / 400.0 && q[4] == q[5] == q[7] == hh / 25600.0
            && q[2] == 0.0001 && q[6] == 0.0000000001
  {
    ScaledSquare(0.05, h, hh, 1.0 / 400.0);
    ScaledSquare(0.00625, h, hh, 1.0 / 25600.0);
    assert WEIGHT_POSITION * h == 0.05 * h && WEIGHT_VELOCITY * h == 0.00625 * h;
  }

  lemma MeasurementNoise(h: real, hh: real)
    requires hh == h * h
    ensures var q := Squares(MeasureStd(h));
            q[0] == q[1] == q[3] == hh / 400.0 && q[2] == 0.01
  {
    ScaledSquare(0.05, h, hh, 1.0 / 400.0);
    assert WEIGHT_POSITION * h == 0.05 * h;
  }

  // ----- one axis

  lemma Quotient(a: real, s: real, g: real)
    requires s > 0.0 && a == g * s
    ensures a / s == g
  {
  }

  /** An axis after its birth and a prediction. */
  function Young(p: real, hh: real, position: bool): Axis {
    if position then Axis(p, 0.0, hh * 21.0 / 1280.0, hh / 256.0, hh * 101.0 / 25600.0)
    else Axis(p, 0.0, 0.0002000001, 0.0000000001, 0.0000000002)
  }

  lemma FirstPrediction(p: real, hh: real)
    ensures SmallPredict(Axis(p, 0.0, hh / 100.0, 0.0, hh / 256.0), hh / 400.0, hh / 25600.0) == Young(p, hh, true)
    ensures SmallPredict(Axis(p, 0.0, 0.0001, 0.0, 0.0000000001), 0.0001, 0.0000000001) == Young(p, hh, false)
  {
  }

  /** The gains of the second frame. */
  lemma SecondPosition(p: real, hh: real, z: real)
    requires hh > 0.0
    ensures var f := Young(p, hh, true);
            && f.a + hh / 400.0 != 0.0
            && SmallCorrect(f, z, hh / 400.0) ==
               Axis(p + (z - p) * (105.0 / 121.0), (z - p) * (25.0 / 121.0),
                    hh * 21.0 / 9680.0, hh / 1936.0, hh * 9721.0 / 3097600.0)
  {
    var f := Young(p, hh, true);
    Quotient(f.a, f.a + hh / 400.0, 105.0 / 121.0);
    Quotient(f.b, f.a + hh / 400.0, 25.0 / 121.0);
  }

  lemma SecondRatio(p: real, hh: real, z: real)
    ensures var f, s := Young(p, hh, false), 102000001.0;
            && f.a + 0.01 != 0.0
            && SmallCorrect(f, z, 0.01) ==
               Axis(p + (z - p) * (2000001.0 / s), (z - p) * (1.0 / s),
                    0.0002000001 * (100000000.0 / s), 0.01 / s, 0.0204000001 / s)
  {
    var f := Young(p, hh, false);
    Quotient(f.a, f.a + 0.01, 2000001.0 / 102000001.0);
    Quotient(f.b, f.a + 0.01, 1.0 / 102000001.0);
  }

  lemma BirthCorrection(p: real, hh: real, z: real)
    requires hh > 0.0
    ensures var f := Axis(p, 0.0, hh / 100.0, 0.0, hh / 256.0);
            f.a + hh / 400.0 != 0.0 && SmallCorrect(f, z, hh / 400.0).p == p + (z - p) * (4.0 / 5.0)
            && SmallCorrect(f, z, hh / 400.0).v == 0.0
    ensures var f := Axis(p, 0.0, 0.0001, 0.0, 0.0000000001);
            f.a + 0.01 != 0.0 && SmallCorrect(f, z, 0.01).p == p + (z - p) * (1.0 / 101.0)
            && SmallCorrect(f, z, 0.01).v == 0.0
  {
    Quotient(hh / 100.0, hh / 100.0 + hh / 400.0, 4.0 / 5.0);
    Quotient(0.0, hh / 100.0 + hh / 400.0, 0.0);
    Quotient(0.0001, 0.0001 + 0.01, 1.0 / 101.0);
    Quotient(0.0, 0.0001 + 0.01, 0.0);
  }

  // ----- the four axes

  lemma BornAxes(first: Vector, hh: real, i: nat)
    requires |first| == 4 && i < 4 && hh == first[3] * first[3]
    ensures InitialAxes(first)[i] == if i == 2 then Axis(first[i], 0.0, 0.0001, 0.0, 0.0000000001)
                                     else Axis(first[i], 0.0, hh / 100.0, 0.0, hh / 256.0)
  {
    InitialNoise(first[3], hh);
  }

  lemma YoungAxes(first: Vector, hh: real, i: nat)
    requires |first| == 4 && i < 4 && hh == first[3] * first[3]
    ensures PredictAxes(InitialAxes(first))[i] == Young(first[i], hh, i != 2)
  {
    hide InitialAxes, InitialStd, MotionStd, Young, SmallPredict;
    BornAxes(first, hh, i);
    BornAxes(first, hh, 3);
    MotionNoise(first[3], hh);
    FirstPrediction(first[i], hh);
  }

  lemma PredictedPosition(fs: seq<Axis>, i: nat)
    requires |fs| == 4 && i < 4
    ensures PredictAxes(fs)[i].p == fs[i].p + fs[i].v
  {
  }

  /** The four axes after the second frame. */
  function Grown(p: real, hh: real, d: real, position: bool): Axis {
    var s := 102000001.0;
    if position then
      Axis(p + d * (105.0 / 121.0), d * (25.0 / 121.0), hh * 21.0 / 9680.0, hh / 1936.0, hh * 9721.0 / 3097600.0)
    else
      Axis(p + d * (2000001.0 / s), d * (1.0 / s), 0.0002000001 * (100000000.0 / s), 0.01 / s, 0.0204000001 / s)
  }

  lemma GrownAxes(first: Vector, second: Vector, hh: real)
    requires |first| == |second| == 4 && first[3] != 0.0 && hh == first[3] * first[3]
    ensures var fs := PredictAxes(InitialAxes(first));
            && Solvable(fs, Squares(MeasureStd(fs[3].p))) && AllDefinite(fs) && fs[3].p == first[3]
            && forall i :: 0 <= i < 4 ==>
                 CorrectAxes(fs, second)[i] == Grown(first[i], hh, second[i] - first[i], i != 2)
  {
    hide Definite, SmallCorrect, Young, Grown;
    var fs := PredictAxes(InitialAxes(first));
    InitialDefinite(first);
    PredictKeepsDefinite(InitialAxes(first));
    assert fs[3].p == first[3] by { YoungAxes(first, hh, 3); YoungPosition(first[3], hh, true); }
    CorrectKeepsDefinite(fs, second);
    SquareSign(first[3], hh);
    MeasurementNoise(first[3], hh);
    forall i | 0 <= i < 4
      ensures CorrectAxes(fs, second)[i] == Grown(first[i], hh, second[i] - first[i], i != 2)
    {
      YoungAxes(first, hh, i);
      GrownAxis(first[i], hh, second[i], i != 2);
    }
  }

  lemma YoungPosition(p: real, hh: real, position: bool)
    ensures Young(p, hh, position).p == p
  {
  }

  lemma GrownAxis(p: real, hh: real, z: real, position: bool)
    requires hh > 0.0
    ensures var f, m := Young(p, hh, position), if position then hh / 400.0 else 0.01;
            f.a + m != 0.0 && SmallCorrect(f, z, m) == Grown(p, hh, z - p, position)
  {
    SecondPosition(p, hh, z);
    SecondRatio(p, hh, z);
  }

  /** The second frame of a track that was moved on: how far each axis follows the measurement, and the velocity it
      takes from it; the box predicted for the third frame has moved by both. */
  lemma SecondFrame(first: Vector, second: Vector)
    requires |first| == |second| == 4 && first[3] != 0.0
    ensures var fs := PredictAxes(InitialAxes(first));
            && Solvable(fs, Squares(MeasureStd(fs[3].p)))
            && forall i :: 0 <= i < 4 ==>
                 var c, d := CorrectAxes(fs, second)[i], second[i] - first[i];
                 && fs[i].p == first[i]
                 && c.p == first[i] + d * (if i == 2 then 2000001.0 / 102000001.0 else 105.0 / 121.0)
                 && c.v == d * (if i == 2 then 1.0 / 102000001.0 else 25.0 / 121.0)
                 && PredictAxes(CorrectAxes(fs, second))[i].p == c.p + c.v
  {
    hide PredictAxes, CorrectAxes, InitialAxes, MeasureStd, Solvable;
    var hh := first[3] * first[3];
    GrownAxes(first, second, hh);
    forall i | 0 <= i < 4
      ensures PredictAxes(InitialAxes(first))[i].p == first[i]
      ensures PredictAxes(CorrectAxes(PredictAxes(InitialAxes(first)), second))[i].p ==
              CorrectAxes(PredictAxes(InitialAxes(first)), second)[i].p +
              CorrectAxes(PredictAxes(InitialAxes(first)), second)[i].v
    {
      YoungAxes(first, hh, i);
      PredictedPosition(CorrectAxes(PredictAxes(InitialAxes(first)), second), i);
    }
  }

  /** The second frame of a track that was not moved on, because it was not confirmed yet. */
  lemma SecondFrameUnmoved(first: Vector, second: Vector)
    requires |first| == |second| == 4 && first[3] != 0.0
    ensures var fs := InitialAxes(first);
            && Solvable(fs, Squares(MeasureStd(fs[3].p)))
            && forall i :: 0 <= i < 4 ==>
                 var c := CorrectAxes(fs, second)[i];
                 c.v == 0.0 && c.p == first[i] + (second[i] - first[i]) * (if i == 2 then 1.0 / 101.0 else 4.0 / 5.0)
  {
    hide Definite, SmallCorrect;
    var fs, hh := InitialAxes(first), first[3] * first[3];
    InitialDefinite(first);
    CorrectKeepsDefinite(fs, second);
    SquareSign(first[3], hh);
    BornAxes(first, hh, 3);
    MeasurementNoise(first[3], hh);
    forall i | 0 <= i < 4
      ensures var c := CorrectAxes(fs, second)[i];
              c.v == 0.0 && c.p == first[i] + (second[i] - first[i]) * (if i == 2 then 1.0 / 101.0 else 4.0 / 5.0)
    {
      BornAxes(first, hh, i);
      BirthCorrection(first[i], hh, second[i]);
    }
  }

  lemma ThirdPrediction(p: real, hh: real, d: real, kk: real)
    ensures var f := SmallPredict(Grown(p, hh, d, true), kk / 400.0, kk / 25600.0);
            f.a == hh * 19641.0 / 3097600.0 + kk / 400.0 && f.b == hh * 11321.0 / 3097600.0
    ensures var f := SmallPredict(Grown(p, hh, d, false), 0.0001, 0.0000000001);
            f.a == 2990104009901.0 / 10099010000000000.0 && f.b == 3009901.0 / 10099010000000000.0
  {
  }

  /** The filter in its first three frames: born, moved on, corrected, moved on. */
  ghost predicate ThreeFrames(first: Vector, second: Vector, fs1: seq<Axis>, fs2: seq<Axis>, fs3: seq<Axis>) {
    && |first| == |second| == 4 && first[3] != 0.0 && |fs2| == 4
    && fs1 == PredictAxes(InitialAxes(first))
    && Solvable(fs1, Squares(MeasureStd(fs1[3].p))) && fs2 == CorrectAxes(fs1, second)
    && fs3 == PredictAxes(fs2)
  }

  /** The variances of the axes in the third frame, from the squared heights of the first and the second. */
  lemma ThirdAxes(first: Vector, second: Vector, fs1: seq<Axis>, fs2: seq<Axis>, fs3: seq<Axis>, hh: real, kk: real,
                  i: nat)
    requires ThreeFrames(first, second, fs1, fs2, fs3) && i < 4
    requires hh == first[3] * first[3] && kk == fs2[3].p * fs2[3].p
    ensures |fs3| == 4
    ensures if i == 2 then fs3[i].a == 2990104009901.0 / 10099010000000000.0 &&
            fs3[i].b == 3009901.0 / 10099010000000000.0
            else fs3[i].a == hh * 19641.0 / 3097600.0 + kk / 400.0 && fs3[i].b == hh * 11321.0 / 3097600.0
  {
    hide Grown, SmallPredict, Solvable, InitialAxes, InitialStd, MotionStd, MeasureStd, CorrectAxes;
    GrownAxes(first, second, hh);
    MotionNoise(fs2[3].p, kk);
    ThirdPrediction(first[i], hh, second[i] - first[i], kk);
  }

  /** How a correction by gains of the shares `a` and `b` in `t` moves an axis. */
  lemma SharedCorrection(f: Axis, z: real, m: real)
    requires f.a + m != 0.0
    ensures var c := SmallCorrect(f, z, m);
            && (c.p - f.p) * (f.a + m) == (z - f.p) * f.a && (c.v - f.v) * (f.a + m) == (z - f.p) * f.b
  {
    var t := f.a + m;
    assert f.a / t * t == f.a && f.b / t * t == f.b;
    Shares(z - f.p, f.a / t, t);
    Shares(z - f.p, f.b / t, t);
  }

  lemma Shares(x: real, g: real, t: real)
    ensures x * g * t == x * (g * t)
  {
  }

  /** The third frame: the variance of a position has grown from the heights of the first two frames, and is weighed
      against the noise that belongs to the height now predicted; the ratio's gains are fixed numbers again. */
  ghost predicate ThirdStep(first: Vector, z: real, fs2: seq<Axis>, fs3: seq<Axis>, c: Axis, i: int)
    requires |first| == |fs2| == |fs3| == 4 && 0 <= i < 4
  {
    var f, d := fs3[i], z - fs3[i].p;
    && f.p == fs2[i].p + fs2[i].v && f.v == fs2[i].v
    && if i == 2 then
         c.p == f.p + d * (2990104009901.0 / 103980204009901.0) && c.v == f.v + d * (3009901.0 / 103980204009901.0)
       else
         var hh, kk, ll := first[3] * first[3], fs2[3].p * fs2[3].p, fs3[3].p * fs3[3].p;
         var spread := hh * 19641.0 / 3097600.0 + kk / 400.0;
         && spread + ll / 400.0 != 0.0
         && (c.p - f.p) * (spread + ll / 400.0) == d * spread
         && (c.v - f.v) * (spread + ll / 400.0) == d * (hh * 11321.0 / 3097600.0)
  }

  lemma ThirdFrame(first: Vector, second: Vector, third: Vector, fs1: seq<Axis>, fs2: seq<Axis>, fs3: seq<Axis>)
    requires ThreeFrames(first, second, fs1, fs2, fs3) && |third| == 4
    ensures |fs3| == 4 && Solvable(fs3, Squares(MeasureStd(fs3[3].p)))
    ensures |fs2| == 4 && forall i :: 0 <= i < 4 ==> ThirdStep(first, third[i], fs2, fs3, CorrectAxes(fs3, third)[i], i)
  {
    hide Definite, SmallCorrect, InitialAxes, InitialStd, MotionStd, MeasureStd, ThirdStep;
    var hh, kk, ll := first[3] * first[3], fs2[3].p * fs2[3].p, fs3[3].p * fs3[3].p;
    GrownAxes(first, second, hh);
    CorrectKeepsDefinite(fs1, second);
    PredictKeepsDefinite(fs2);
    CorrectKeepsDefinite(fs3, third);
    MeasurementNoise(fs3[3].p, ll);
    forall i | 0 <= i < 4
      ensures ThirdStep(first, third[i], fs2, fs3, CorrectAxes(fs3, third)[i], i)
    {
      ThirdAxes(first, second, fs1, fs2, fs3, hh, kk, i);
      ThirdAxis(first, third[i], fs2, fs3, hh, kk, ll, i);
    }
  }

  lemma ThirdAxis(first: Vector, z: real, fs2: seq<Axis>, fs3: seq<Axis>, hh: real, kk: real, ll: real, i: nat)
    requires |first| == |fs2| == |fs3| == 4 && i < 4
    requires hh == first[3] * first[3] && kk == fs2[3].p * fs2[3].p && ll == fs3[3].p * fs3[3].p
    requires fs3[i].p == fs2[i].p + fs2[i].v && fs3[i].v == fs2[i].v
    requires if i == 2 then fs3[i].a == 2990104009901.0 / 10099010000000000.0 &&
             fs3[i].b == 3009901.0 / 10099010000000000.0
             else fs3[i].a == hh * 19641.0 / 3097600.0 + kk / 400.0 && fs3[i].b == hh * 11321.0 / 3097600.0
    requires fs3[i].a + (if i == 2 then 0.01 else ll / 400.0) != 0.0
    ensures ThirdStep(first, z, fs2, fs3, SmallCorrect(fs3[i], z, if i == 2 then 0.01 else ll / 400.0), i)
  {
    hide SmallCorrect;
    if i == 2 {
      ThirdRatio(fs3[i], z);
    } else {
      SharedCorrection(fs3[i], z, ll / 400.0);
    }
  }

  lemma ThirdRatio(f: Axis, z: real)
    requires f.a == 2990104009901.0 / 10099010000000000.0 && f.b == 3009901.0 / 10099010000000000.0
    ensures var c := SmallCorrect(f, z, 0.01);
            && c.p == f.p + (z - f.p) * (2990104009901.0 / 103980204009901.0)
            && c.v == f.v + (z - f.p) * (3009901.0 / 103980204009901.0)
  {
    Quotient(f.a, f.a + 0.01, 2990104009901.0 / 103980204009901.0);
    Quotient(f.b, f.a + 0.01, 3009901.0 / 103980204009901.0);
  }

  const BOX: Vector := [0.0, 0.0, 1.0, 1.0]
  const FLATTER: Vector := [0.0, 0.0, 1.0, 9.0 / 130.0]

  lemma InitialState(z: Vector) returns (s: State)
    requires |z| == 4
    ensures Represents(s.mean, s.cov, InitialAxes(z))
  {
    s := State(z + [0.0, 0.0, 0.0, 0.0], Diagonal(Squares(InitialStd(z[3]))));
  }

  /** Two frames are enough: measured heights are positive throughout, yet the second prediction reaches height
      zero with a positive definite covariance, and the correction after it makes the covariance lose this. */
  lemma DefinitenessIsLost(f: Matrix, u: Matrix) returns (es: seq<Event>, ss: seq<State>)
    requires IsMotion(f) && IsUpdate(u)
    ensures es == [Predict(false), Correct(FLATTER), Predict(false), Correct(BOX)] && BOX[3] > 0.0 && FLATTER[3] > 0.0
    ensures DenseRun(f, u, es, ss) && Represents(ss[0].mean, ss[0].cov, InitialAxes(BOX))
    ensures |ss[3].mean| == 8 && ss[3].mean[3] == 0.0 && PositiveDefinite(ss[3].cov) && !PositiveDefinite(ss[4].cov)
  {
    hide AllDefinite, PositiveDefinite, PredictAxes, CorrectAxes, InitialAxes, Solvable, DenseStep;
    es := [Predict(false), Correct(FLATTER), Predict(false), Correct(BOX)];
    SecondFrame(BOX, FLATTER);
    var fs0 := InitialAxes(BOX);
    var s0 := InitialState(BOX);
    InitialDefinite(BOX);
    var fs1 := PredictAxes(fs0);
    PredictKeepsDefinite(fs0);
    var s1 := StepLifts(f, u, es[0], s0, fs0, fs1);
    var fs2 := CorrectAxes(fs1, FLATTER);
    CorrectKeepsDefinite(fs1, FLATTER);
    var s2 := StepLifts(f, u, es[1], s1, fs1, fs2);
    var fs3 := PredictAxes(fs2);
    PredictKeepsDefinite(fs2);
    var s3 := StepLifts(f, u, es[2], s2, fs2, fs3);
    CorrectKeepsDefinite(fs3, BOX);
    var fs4 := CorrectAxes(fs3, BOX);
    var s4 := StepLifts(f, u, es[3], s3, fs3, fs4);
    ss := [s0, s1, s2, s3, s4];
    DefiniteExactly(s3.mean, s3.cov, fs3);
    DefiniteExactly(s4.mean, s4.cov, fs4);
  }
}
