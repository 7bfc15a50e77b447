/** The tracker's box prediction: the box filter read as a motion, and the boxes it can lead to. */
module BoxFilter {
  import opened DenseMatrix
  import opened Iou
  import opened Tracks
  import opened Duplicates
  import opened TrackerFrame
  import opened TrackerSteps
  import opened TrackerEffects
  import opened TrackerStages
  import opened TrackerOutcome
  import opened TrackerFinish
  import opened TrackerRuns
  import opened TrackerLaws
  import opened Kalman
  import opened KalmanForm
  import opened KalmanRuns
  import opened KalmanGains

  type Filter = fs: seq<Axis> | |fs| == 4 witness seq(4, _ => Axis(0.0, 0.0, 1.0, 0.0, 1.0))

  /** `tlwh_to_xyah` of a box: centre, aspect ratio and height. A box without height has no aspect ratio. */
  function Measurement(b: Box): (z: Vector)
    ensures |z| == 4
  {
    var w, h := b.x2 - b.x1, b.y2 - b.y1;
    [b.x1 + w / 2.0, b.y1 + h / 2.0, if h == 0.0 then 0.0 else w / h, h]
  }

  /** `static_tlwh` and `static_tlbr`. */
  function BoxOf(fs: Filter): Box {
    var h := fs[3].p;
    var w := fs[2].p * h;
    var x, y := fs[0].p - w / 2.0, fs[1].p - h / 2.0;
    Box(x, y, x + w, y + h)
  }

  function Initial(b: Box): Filter {
    InitialAxes(Measurement(b))
  }

  function MovedOn(k: Filter, still: bool): Filter {
    PredictAxes(if still then HeldStill(k) else k)
  }

  ghost function CorrectedWithBox(k: Filter, b: Box): Filter {
    if Solvable(k, Squares(MeasureStd(k[3].p))) then CorrectAxes(k, Measurement(b)) else k
  }

  /** The motion of the program's tracker: each of its functions is the one of the small filters. */
  ghost function BoxMotion(): Motion<Filter> {
    Motion((b: Box) => Initial(b),
           (k: Filter, still: bool) => MovedOn(k, still),
           (k: Filter, b: Box) => CorrectedWithBox(k, b),
           (k: Filter) => BoxOf(k))
  }

  /** A new filter stands on the box it was made from. */
  lemma InitialBox(b: Box)
    requires b.y2 != b.y1
    ensures BoxOf(Initial(b)) == b
  {
    var w, h := b.x2 - b.x1, b.y2 - b.y1;
    assert w / h * h == w;
  }

  lemma SizedExactly(fs: Filter)
    ensures Sized(BoxOf(fs)) <==> fs[3].p >= 0.0 && fs[2].p * fs[3].p >= 0.0
  {
  }

  /** A definite filter of a box with a height. */
  ghost predicate Upright(fs: Filter) {
    AllDefinite(fs) && fs[2].p >= 0.0 && fs[3].p > 0.0
  }

  /** With a height, the box has no negative size exactly if ratio and height have the right signs. */
  lemma UprightExactly(fs: Filter)
    requires AllDefinite(fs) && fs[3].p != 0.0
    ensures Sized(BoxOf(fs)) <==> Upright(fs)
  {
    var a, h := fs[2].p, fs[3].p;
    var w := a * h;
    SizedExactly(fs);
    if h > 0.0 {
      if a >= 0.0 {
        NonNegativeProduct(a, h, w);
      } else {
        PositiveProduct(-a, h, -w);
      }
    }
  }

  /** A correction with a share between 0 and 1 lies between estimate and measurement. */
  lemma Between(p: real, z: real, g: real, q: real)
    requires q == p + (z - p) * g && 0.0 <= g < 1.0 && p >= 0.0 && z >= 0.0
    ensures q >= 0.0 && (p > 0.0 ==> q > 0.0)
  {
    var kept, taken := p * (1.0 - g), z * g;
    assert q == kept + taken;
    NonNegativeProduct(p, 1.0 - g, kept);
    NonNegativeProduct(z, g, taken);
    if p > 0.0 { PositiveProduct(p, 1.0 - g, kept); }
  }

  lemma ShareBelowOne(a: real, r: real, g: real)
    requires a > 0.0 && r > 0.0 && g == a / (a + r)
    ensures 0.0 <= g < 1.0
  {
    TimesQuotient(a + r, a, g);
    var rest := 1.0 - g;
    assert (a + r) * rest == r by { assert (a + r) * rest == (a + r) - (a + r) * g; }
    PositiveFactor(a + r, rest, r);
    PositiveFactor(a + r, g, a);
  }

  lemma MeasurementSigns(b: Box)
    requires Sized(b)
    ensures Measurement(b)[2] >= 0.0 && Measurement(b)[3] >= 0.0
  {
    var w, h := b.x2 - b.x1, b.y2 - b.y1;
    if h > 0.0 {
      var a := w / h;
      assert h * a == w;
      if a < 0.0 { PositiveProduct(h, -a, -w); }
    }
  }

  lemma CorrectedSign(f: Axis, z: real, r: real)
    requires Definite(f) && r > 0.0 && f.p >= 0.0 && z >= 0.0
    ensures f.a + r != 0.0
    ensures SmallCorrect(f, z, r).p >= 0.0 && (f.p > 0.0 ==> SmallCorrect(f, z, r).p > 0.0)
  {
    var g := f.a / (f.a + r);
    ShareBelowOne(f.a, r, g);
    Between(f.p, z, g, SmallCorrect(f, z, r).p);
  }

  /** A correction by any box of non-negative size keeps a filter upright. */
  lemma CorrectKeepsUpright(fs: Filter, b: Box)
    requires Upright(fs) && Sized(b)
    ensures Upright(CorrectedWithBox(fs, b))
  {
    hide Definite, BoxOf, Measurement, MeasureStd, SmallCorrect;
    var z, h := Measurement(b), fs[3].p;
    MeasurementSigns(b);
    CorrectKeepsDefinite(fs, z);
    NoiseSign(h, 2);
    NoiseSign(h, 3);
    CorrectedSign(fs[2], z[2], Squares(MeasureStd(h))[2]);
    CorrectedSign(fs[3], z[3], Squares(MeasureStd(h))[3]);
  }

  // ----- boxes of any motion

  ghost predicate SizedObjects(objects: seq<Object>) {
    forall i :: 0 <= i < |objects| ==> 0.0 <= objects[i].rect.width && 0.0 <= objects[i].rect.height
  }

  /** The box a track gets from a detection has no negative size. */
  ghost predicate SizedBy<K>(motion: Motion<K>, t: Track<K>, det: Track<K>) {
    Sized(t.Corrected(motion, det.tlbr).tlbr)
  }

  ghost predicate StaysSized<K>(motion: Motion<K>, t: Track<K>, objects: seq<Object>) {
    Sized(t.tlbr) && forall o :: 0 <= o < |objects| ==> SizedBy(motion, t, Detection(objects[o]))
  }

  /** Whatever the filter does to the tracks in this frame, their boxes keep a non-negative size: moved on, or also
      corrected by any object of the frame. */
  ghost predicate SizedFrame<K>(motion: Motion<K>, fr: Frame<K>) {
    forall r :: RefOk(fr, r) ==> StaysSized(motion, Predicted(motion, fr, r, Pooled(fr, r)), fr.objects)
  }

  ghost predicate AllSized<K>(ts: seq<Track<K>>) {
    forall i :: 0 <= i < |ts| ==> Sized(ts[i].tlbr)
  }

  lemma OutcomeSized<K>(motion: Motion<K>, fr: Frame<K>, hit: Hits, r: Ref)
    requires SizedFrame(motion, fr) && RefOk(fr, r)
    requires IdOf(fr, r) in hit ==> 0 <= hit[IdOf(fr, r)] < |fr.objects|
    ensures Sized(Outcome(motion, fr, hit, r).tlbr)
  {
    hide Predicted, Detection, Sized;
    var t := Predicted(motion, fr, r, Pooled(fr, r));
    assert StaysSized(motion, t, fr.objects);
    if IdOf(fr, r) in hit {
      assert SizedBy(motion, t, Detection(fr.objects[hit[IdOf(fr, r)]]));
    }
  }

  /** Such a frame leaves only boxes of non-negative size behind. */
  lemma FrameKeepsSizes<K>(motion: Motion<K>, limit: int, s: Snapshot<K>, m: Moment<K>, s': Snapshot<K>)
    requires FrameStep(motion, limit, s, m, s')
    requires SizedObjects(m.objects) && SizedFrame(motion, s.Begin(m.objects))
    ensures AllSized(s'.tracked) && AllSized(s'.lost)
  {
    hide Outcome, Sized, SizedFrame, DroppedA, DroppedB, Steady;
    var fr := s.Begin(m.objects);
    KeptMembers(m.all_tracked, DroppedA(m.all_tracked, m.all_lost));
    KeptMembers(m.all_lost, DroppedB(m.all_tracked, m.all_lost));
    forall i | 0 <= i < |s'.tracked|
      ensures Sized(s'.tracked[i].tlbr)
    {
      var t := s'.tracked[i];
      assert TrackedFate(motion, fr, m.hit, t);
      if BornFrom(motion, fr.objects, fr.now, fr.count, m.hit, t) {
        DetectionSized<K>(fr.objects, m.hit[t.track_id]);
      } else {
        var r :| Fated(motion, fr, m.hit, r, t) && IdOf(fr, r) in m.hit;
        OutcomeSized(motion, fr, m.hit, r);
      }
    }
    forall i | 0 <= i < |s'.lost|
      ensures Sized(s'.lost[i].tlbr)
    {
      var t := s'.lost[i];
      assert LostFate(motion, fr, m.hit, limit, t);
      var r :| && RefOk(fr, r) && IdOf(fr, r) == t.track_id && IdOf(fr, r) !in m.hit && Pooled(fr, r)
               && t == if r.InLost? then Aged(Outcome(motion, fr, m.hit, r), fr.now, limit)
                       else Outcome(motion, fr, m.hit, r);
      OutcomeSized(motion, fr, m.hit, r);
    }
  }

  lemma DetectionSized<K>(objects: seq<Object>, o: int)
    requires SizedObjects(objects) && 0 <= o < |objects|
    ensures Sized(Detection<K>(objects[o]).tlbr)
  {
  }

  // ----- the tracker with this motion

  /** A track whose filter is definite and stands on the track's box. */
  ghost predicate Filtered(t: Track<Filter>) {
    t.motion.Some? && AllDefinite(t.motion.value) && t.tlbr == BoxOf(t.motion.value)
  }

  ghost predicate HasHeightNow(t: Track<Filter>) {
    t.motion.Some? && t.motion.value[3].p != 0.0
  }

  lemma PredictFiltered(t: Track<Filter>)
    requires Filtered(t)
    ensures Filtered(t.Predict(BoxMotion()))
  {
    hide BoxOf, Definite;
    var k := t.motion.value;
    var held := if t.state != Tracked then HeldStill(k) else k;
    assert AllDefinite(held) by { HeldStillDefinite(k); }
    PredictKeepsDefinite(held);
  }

  lemma HeldStillDefinite(k: Filter)
    requires AllDefinite(k)
    ensures AllDefinite(HeldStill(k))
  {
  }

  lemma CorrectFiltered(t: Track<Filter>, b: Box)
    requires Filtered(t) && HasHeightNow(t)
    ensures Filtered(t.Corrected(BoxMotion(), b))
  {
    hide BoxOf, Definite;
    CorrectKeepsDefinite(t.motion.value, Measurement(b));
  }

  /** A corrected track keeps a box of non-negative size if it had one. */
  lemma CorrectSized(t: Track<Filter>, det: Track<Filter>)
    requires Filtered(t) && HasHeightNow(t) && Sized(t.tlbr) && Sized(det.tlbr)
    ensures SizedBy(BoxMotion(), t, det)
  {
    hide BoxOf, Definite;
    UprightExactly(t.motion.value);
    CorrectKeepsUpright(t.motion.value, det.tlbr);
    UprightExactly(CorrectedWithBox(t.motion.value, det.tlbr));
  }

  /** The track as the associations of the frame find it. */
  ghost function Found(fr: Frame<Filter>, r: Ref): Track<Filter>
    requires RefOk(fr, r)
  {
    Predicted(BoxMotion(), fr, r, Pooled(fr, r))
  }

  ghost predicate AllFiltered(fr: Frame<Filter>) {
    forall r :: RefOk(fr, r) ==> Filtered(At(fr.tracked, fr.lost, r)) && HasHeightNow(Found(fr, r))
  }

  lemma FoundFiltered(fr: Frame<Filter>, r: Ref)
    requires AllFiltered(fr) && RefOk(fr, r)
    ensures Filtered(Found(fr, r)) && HasHeightNow(Found(fr, r))
  {
    hide Filtered, HasHeightNow;
    PredictFiltered(At(fr.tracked, fr.lost, r));
  }

  /** For the program's filter it is enough to look at the boxes moved on: no correction makes a box negative. */
  lemma FrameStaysSized(fr: Frame<Filter>)
    requires AllFiltered(fr) && SizedObjects(fr.objects)
    ensures SizedFrame(BoxMotion(), fr) <==> forall r :: RefOk(fr, r) ==> Sized(Found(fr, r).tlbr)
  {
    hide Filtered, HasHeightNow, SizedBy, AllFiltered;
    if forall r :: RefOk(fr, r) ==> Sized(Found(fr, r).tlbr) {
      forall r | RefOk(fr, r)
        ensures StaysSized(BoxMotion(), Predicted(BoxMotion(), fr, r, Pooled(fr, r)), fr.objects)
      {
        FoundFiltered(fr, r);
        forall o | 0 <= o < |fr.objects|
          ensures SizedBy(BoxMotion(), Found(fr, r), Detection(fr.objects[o]))
        {
          CorrectSized(Found(fr, r), Detection(fr.objects[o]));
        }
      }
    } else {
      var r :| RefOk(fr, r) && !Sized(Found(fr, r).tlbr);
      assert !StaysSized(BoxMotion(), Predicted(BoxMotion(), fr, r, Pooled(fr, r)), fr.objects);
    }
  }

  ghost predicate Tall(objects: seq<Object>) {
    forall o :: 0 <= o < |objects| ==> objects[o].rect.height > 0.0
  }

  ghost predicate AllStand(ts: seq<Track<Filter>>) {
    forall i :: 0 <= i < |ts| ==> Filtered(ts[i])
  }

  /** The height a track is found with in a frame is not zero. */
  ghost predicate HeightsFound(fr: Frame<Filter>) {
    forall r :: RefOk(fr, r) ==> HasHeightNow(Found(fr, r))
  }

  /** A frame whose objects have a height leaves every track with a definite filter standing on its box. */
  lemma FrameKeepsFilters(limit: int, s: Snapshot<Filter>, m: Moment<Filter>, s': Snapshot<Filter>)
    requires FrameStep(BoxMotion(), limit, s, m, s') && Tall(m.objects)
    requires AllStand(s.tracked) && AllStand(s.lost) && HeightsFound(s.Begin(m.objects))
    ensures AllStand(s'.tracked) && AllStand(s'.lost)
  {
    hide Outcome, Filtered, HeightsFound, DroppedA, DroppedB, Steady, HasHeightNow;
    var fr := s.Begin(m.objects);
    AllFilteredFrom(s, m.objects);
    KeptMembers(m.all_tracked, DroppedA(m.all_tracked, m.all_lost));
    KeptMembers(m.all_lost, DroppedB(m.all_tracked, m.all_lost));
    forall i | 0 <= i < |s'.tracked|
      ensures Filtered(s'.tracked[i])
    {
      var t := s'.tracked[i];
      assert TrackedFate(BoxMotion(), fr, m.hit, t);
      if BornFrom(BoxMotion(), fr.objects, fr.now, fr.count, m.hit, t) {
        BirthFiltered(fr.objects[m.hit[t.track_id]], t.track_id, fr.now);
      } else {
        var r :| Fated(BoxMotion(), fr, m.hit, r, t) && IdOf(fr, r) in m.hit;
        OutcomeFiltered(fr, m.hit, r);
      }
    }
    forall i | 0 <= i < |s'.lost|
      ensures Filtered(s'.lost[i])
    {
      var t := s'.lost[i];
      assert LostFate(BoxMotion(), fr, m.hit, limit, t);
      var r :| && RefOk(fr, r) && IdOf(fr, r) == t.track_id && IdOf(fr, r) !in m.hit && Pooled(fr, r)
               && t == if r.InLost? then Aged(Outcome(BoxMotion(), fr, m.hit, r), fr.now, limit)
                       else Outcome(BoxMotion(), fr, m.hit, r);
      OutcomeFiltered(fr, m.hit, r);
      SameFilter(t, Outcome(BoxMotion(), fr, m.hit, r));
    }
  }

  lemma SameFilter(t: Track<Filter>, u: Track<Filter>)
    requires Filtered(u) && t.motion == u.motion && t.tlbr == u.tlbr
    ensures Filtered(t)
  {
  }

  lemma AllFilteredFrom(s: Snapshot<Filter>, objects: seq<Object>)
    requires AllStand(s.tracked) && AllStand(s.lost) && HeightsFound(s.Begin(objects))
    ensures AllFiltered(s.Begin(objects))
  {
    hide Filtered, HasHeightNow, Found;
  }

  /** Over every run of the program's tracker in which objects have a height and no track is found with height zero:
      all filters stay definite and stand on their boxes. */
  lemma {:induction false} FiltersStayDefinite(limit: int, ss: seq<Snapshot<Filter>>, ms: seq<Moment<Filter>>, n: nat)
    requires TrackerRun(BoxMotion(), limit, ss, ms) && n < |ss| && ss[0].tracked == ss[0].lost == []
    requires forall k :: 0 <= k < n ==> Tall(ms[k].objects) && HeightsFound(ss[k].Begin(ms[k].objects))
    ensures AllStand(ss[n].tracked) && AllStand(ss[n].lost)
  {
    hide FrameStep, HeightsFound, Tall;
    if n > 0 {
      FiltersStayDefinite(limit, ss, ms, n - 1);
      FrameKeepsFilters(limit, ss[n - 1], ms[n - 1], ss[n]);
    }
  }

  ghost predicate FoundSized(fr: Frame<Filter>) {
    forall r :: RefOk(fr, r) ==> Sized(Found(fr, r).tlbr)
  }

  /** In such a run the boxes after a frame have non-negative size if those moved on in it had. */
  lemma RunKeepsSizes(limit: int, ss: seq<Snapshot<Filter>>, ms: seq<Moment<Filter>>, n: nat)
    requires TrackerRun(BoxMotion(), limit, ss, ms) && n < |ms| && ss[0].tracked == ss[0].lost == []
    requires forall k :: 0 <= k <= n ==> Tall(ms[k].objects) && HeightsFound(ss[k].Begin(ms[k].objects))
    requires SizedObjects(ms[n].objects) && FoundSized(ss[n].Begin(ms[n].objects))
    ensures AllSized(ss[n + 1].tracked) && AllSized(ss[n + 1].lost)
  {
    hide FrameStep, HeightsFound, Tall, AllStand;
    FiltersStayDefinite(limit, ss, ms, n);
    AllFilteredFrom(ss[n], ms[n].objects);
    FrameStaysSized(ss[n].Begin(ms[n].objects));
    FrameKeepsSizes(BoxMotion(), limit, ss[n], ms[n], ss[n + 1]);
  }

  lemma BirthFiltered(o: Object, id: int, now: int)
    requires o.rect.height > 0.0
    ensures Filtered(Detection<Filter>(o).Activate(BoxMotion(), id, now))
  {
    var b := Detection<Filter>(o).tlbr;
    InitialBox(b);
    InitialDefinite(Measurement(b));
  }

  lemma OutcomeFiltered(fr: Frame<Filter>, hit: Hits, r: Ref)
    requires AllFiltered(fr) && RefOk(fr, r) && (IdOf(fr, r) in hit ==> 0 <= hit[IdOf(fr, r)] < |fr.objects|)
    ensures Filtered(Outcome(BoxMotion(), fr, hit, r))
  {
    hide AllDefinite, BoxOf, AllFiltered;
    FoundFiltered(fr, r);
    if IdOf(fr, r) in hit {
      CorrectFiltered(Found(fr, r), Detection<Filter>(fr.objects[hit[IdOf(fr, r)]]).tlbr);
    }
  }

  // ----- what a track takes from its objects

  /** Centre, ratio and height of a rectangle. */
  function Measured(r: Rect): (z: Vector)
    ensures |z| == 4
  {
    [r.x + r.width / 2.0, r.y + r.height / 2.0, if r.height == 0.0 then 0.0 else r.width / r.height, r.height]
  }

  /** The box has this centre, ratio and height. */
  ghost predicate BoxIs(b: Box, x: real, y: real, ratio: real, height: real) {
    && (b.x1 + b.x2) / 2.0 == x && (b.y1 + b.y2) / 2.0 == y && b.x2 - b.x1 == ratio * height && b.y2 - b.y1 == height
  }

  lemma BoxOfFilter(fs: Filter)
    ensures BoxIs(BoxOf(fs), fs[0].p, fs[1].p, fs[2].p, fs[3].p)
  {
  }

  lemma MeasuredCorners(r: Rect)
    ensures Measurement(Corners(r)) == Measured(r)
  {
  }

  /** The filter of every matched track is the correction of its predicted filter by its own object's rectangle, and
      its box is read off that filter. */
  lemma MatchedFilter(limit: int, s: Snapshot<Filter>, m: Moment<Filter>, s': Snapshot<Filter>, t: Track<Filter>)
    returns (u: Track<Filter>, k: seq<Axis>)
    requires FrameStep(BoxMotion(), limit, s, m, s') && t in s'.tracked && t.track_id <= s.count
    ensures (u in s.tracked || u in s.lost) && u.track_id == t.track_id && Owns(m, t.track_id)
    ensures u.motion.Some? ==>
              && k == (if u in s.lost || u.is_activated then
                         PredictAxes(if u.state == Tracked then u.motion.value
                                     else u.motion.value[3 := u.motion.value[3].(v := 0.0)])
                       else u.motion.value)
              && |k| == 4
              && (Solvable(k, Squares(MeasureStd(k[3].p))) ==>
                    var k' := CorrectAxes(k, Measured(m.objects[m.hit[t.track_id]].rect));
                    t.motion.Some? && t.motion.value == k' && BoxIs(t.tlbr, k'[0].p, k'[1].p, k'[2].p, k'[3].p))
  {
    hide FrameStep, BoxOf, Measured, BoxIs;
    u := MatchedTrack(BoxMotion(), limit, s, m, s', t);
    MeasuredCorners(m.objects[m.hit[t.track_id]].rect);
    k := [];
    if u.motion.Some? {
      k := FoundAt(BoxMotion(), u.motion.value, u in s.lost || u.is_activated, u.state);
      BoxOfFilter(t.motion.value);
    }
  }

  /** The two objects a track got in the frames that bore and confirmed it. */
  ghost predicate FirstTwo(limit: int, s0: Snapshot<Filter>, m0: Moment<Filter>, s1: Snapshot<Filter>,
                           m1: Moment<Filter>, s2: Snapshot<Filter>, t: Track<Filter>, a: Rect, b: Rect)
  {
    && FrameStep(BoxMotion(), limit, s0, m0, s1) && FrameStep(BoxMotion(), limit, s1, m1, s2)
    && t in s2.tracked && s0.count < t.track_id <= s1.count
    && (Owns(m0, t.track_id) ==> a == m0.objects[m0.hit[t.track_id]].rect)
    && (Owns(m1, t.track_id) ==> b == m1.objects[m1.hit[t.track_id]].rect)
  }

  /** What the second frame makes of a track: one of the first frame was moved on before its correction, others are
      not confirmed yet and were not. */
  lemma SecondFilter(limit: int, s0: Snapshot<Filter>, m0: Moment<Filter>, s1: Snapshot<Filter>, m1: Moment<Filter>,
                     s2: Snapshot<Filter>, t: Track<Filter>, a: Rect, b: Rect)
    returns (k: seq<Axis>)
    requires FirstTwo(limit, s0, m0, s1, m1, s2, t, a, b) && a.height != 0.0
    ensures Owns(m0, t.track_id) && Owns(m1, t.track_id) && |k| == 4
    ensures k == if s1.now == 1 then PredictAxes(InitialAxes(Measured(a))) else InitialAxes(Measured(a))
    ensures Solvable(k, Squares(MeasureStd(k[3].p)))
    ensures var k' := CorrectAxes(k, Measured(b));
            t.motion.Some? && t.motion.value == k' && BoxIs(t.tlbr, k'[0].p, k'[1].p, k'[2].p, k'[3].p)
  {
    hide BoxOf, BoxIs, PredictAxes, CorrectAxes, InitialAxes, Solvable;
    var u;
    u, k := MatchedFilter(limit, s1, m1, s2, t);
    BornTracked(limit, s0, m0, s1, u);
    NewTrack(BoxMotion(), limit, s0, m0, s1, u);
    MeasuredCorners(a);
    assert u.motion.value == InitialAxes(Measured(a));
    SecondFrame(Measured(a), Measured(b));
    SecondFrameUnmoved(Measured(a), Measured(b));
  }

  /** A track with an identifier issued in a frame is on its tracked list. */
  lemma BornTracked(limit: int, s: Snapshot<Filter>, m: Moment<Filter>, s': Snapshot<Filter>, u: Track<Filter>)
    requires FrameStep(BoxMotion(), limit, s, m, s') && (u in s'.tracked || u in s'.lost) && u.track_id > s.count
    ensures u in s'.tracked && u !in s'.lost
  {
    hide Fates, Deduplicated, Retired, Steady;
    if u in s'.lost {
      var v := LostTrack(BoxMotion(), limit, s, m, s', u);
      RestCount(s, limit, v);
    }
  }

  /** The box of a track after its second frame: how far it follows its second object. */
  lemma SecondBox(limit: int, s0: Snapshot<Filter>, m0: Moment<Filter>, s1: Snapshot<Filter>, m1: Moment<Filter>,
                  s2: Snapshot<Filter>, t: Track<Filter>, a: Rect, b: Rect)
    requires FirstTwo(limit, s0, m0, s1, m1, s2, t, a, b) && a.height != 0.0 && b.height != 0.0
    ensures Owns(m0, t.track_id) && Owns(m1, t.track_id)
    ensures var g, e := if s1.now == 1 then 105.0 / 121.0 else 4.0 / 5.0,
                        if s1.now == 1 then 2000001.0 / 102000001.0 else 1.0 / 101.0;
            var x, y := a.x + a.width / 2.0, a.y + a.height / 2.0;
            var x', y' := b.x + b.width / 2.0, b.y + b.height / 2.0;
            var w, w' := a.width / a.height, b.width / b.height;
            BoxIs(t.tlbr, x + (x' - x) * g, y + (y' - y) * g, w + (w' - w) * e, a.height + (b.height - a.height) * g)
  {
    hide BoxIs, PredictAxes, CorrectAxes, InitialAxes, FirstTwo, Solvable;
    var k := SecondFilter(limit, s0, m0, s1, m1, s2, t, a, b);
    SecondFrame(Measured(a), Measured(b));
    SecondFrameUnmoved(Measured(a), Measured(b));
  }

  // ----- a box that turns negative

  /** The third frame finds a track with a negative height exactly if the track is one of the first frame and its
      second height is below 9/130 of its first. */
  lemma HeightTurnsNegative(limit: int, s0: Snapshot<Filter>, m0: Moment<Filter>, s1: Snapshot<Filter>,
                            m1: Moment<Filter>, s2: Snapshot<Filter>, t: Track<Filter>, a: Rect, b: Rect,
                            objects: seq<Object>, i: nat)
    requires FirstTwo(limit, s0, m0, s1, m1, s2, t, a, b) && a.height > 0.0 && b.height > 0.0
    requires i < |s2.tracked| && s2.tracked[i] == t
    ensures var box := Found(s2.Begin(objects), InTracked(i)).tlbr;
            box.y2 < box.y1 <==> s1.now == 1 && b.height < a.height * (9.0 / 130.0)
  {
    hide BoxIs, BoxOf, PredictAxes, CorrectAxes, InitialAxes, Solvable;
    var k := SecondFilter(limit, s0, m0, s1, m1, s2, t, a, b);
    SecondFrame(Measured(a), Measured(b));
    SecondFrameUnmoved(Measured(a), Measured(b));
    var u := MatchedTrack(BoxMotion(), limit, s1, m1, s2, t);
    var k' := CorrectAxes(k, Measured(b));
    PredictedPosition(k', 3);
    assert Found(s2.Begin(objects), InTracked(i)).tlbr == BoxOf(PredictAxes(k'));
    BoxHeight(PredictAxes(k'));
  }

  lemma BoxHeight(fs: Filter)
    ensures BoxOf(fs).y2 - BoxOf(fs).y1 == fs[3].p
  {
  }
}
