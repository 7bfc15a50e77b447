/** What a frame does to the tracks, told in the fields of their records, and the numbers it uses. */
module TrackerLaws {
  import opened Iou
  import opened Tracks
  import opened Duplicates
  import opened Association
  import opened TrackerFrame
  import opened TrackerSteps
  import opened TrackerEffects
  import opened TrackerStages
  import opened TrackerOutcome
  import opened TrackerFinish
  import opened TrackerRuns
  import LA = LinearAssignment

  /** The corners of a rectangle. */
  function Corners(r: Rect): Box {
    Box(r.x, r.y, r.x + r.width, r.y + r.height)
  }

  /** The track's filter state as the associations find it: moved on if the track was confirmed or lost. */
  function FoundAt<K>(motion: Motion<K>, k: K, moved: bool, state: TrackState): K {
    if moved then motion.predict(k, state != Tracked) else k
  }

  /** `t` is the track `u` after it got the object `o`: its filter is the correction of the predicted one by the
      object's rectangle, and its box is read off that filter. */
  ghost predicate FollowsObject<K>(motion: Motion<K>, now: int, u: Track<K>, moved: bool, o: Object, t: Track<K>) {
    && t.track_id == u.track_id && t.start_frame == u.start_frame && t.frame_id == now && t.score == o.prob
    && t.state == Tracked && t.is_activated
    && t.tracklet_len == (if u.state == Tracked then u.tracklet_len + 1 else 0)
    && (u.motion.Some? ==>
          var k := motion.correct(FoundAt(motion, u.motion.value, moved, u.state), Corners(o.rect));
          t.motion == Some(k) && t.tlbr == motion.box(k))
  }

  /** `t` was made from the object `o`. */
  ghost predicate StartsAt<K>(motion: Motion<K>, now: int, o: Object, t: Track<K>) {
    && t.start_frame == t.frame_id == now && t.score == o.prob && o.prob >= 0.6
    && t.state == Tracked && t.is_activated == (now == 1) && t.tracklet_len == 0
    && t.tlbr == Corners(o.rect) && t.motion == Some(motion.initiate(t.tlbr))
  }

  /** `t` is the track `u` after a frame in which it got no object: only moved on. */
  ghost predicate DriftsOn<K>(motion: Motion<K>, now: int, limit: int, u: Track<K>, waslost: bool, t: Track<K>) {
    && t.track_id == u.track_id && t.start_frame == u.start_frame && t.frame_id == u.frame_id && t.score == u.score
    && t.is_activated == u.is_activated && t.tracklet_len == u.tracklet_len
    && t.state == (if !waslost then Lost else if now - u.frame_id > limit then Removed else u.state)
    && (u.motion.Some? ==>
          var k := motion.predict(u.motion.value, u.state != Tracked);
          t.motion == Some(k) && t.tlbr == motion.box(k))
  }

  /** The object a track owns in a frame. */
  ghost predicate Owns<K>(m: Moment<K>, a: int) {
    a in m.hit && 0 <= m.hit[a] < |m.objects|
  }

  lemma OutcomeFollows<K>(motion: Motion<K>, fr: Frame<K>, hit: Hits, r: Ref)
    requires Start(fr) && RefOk(fr, r) && IdOf(fr, r) in hit && 0 <= hit[IdOf(fr, r)] < |fr.objects|
    ensures FollowsObject(motion, fr.now, At(fr.tracked, fr.lost, r), Pooled(fr, r), fr.objects[hit[IdOf(fr, r)]],
                          Outcome(motion, fr, hit, r))
  {
  }

  lemma OutcomeDrifts<K>(motion: Motion<K>, fr: Frame<K>, hit: Hits, limit: int, r: Ref, t: Track<K>)
    requires Start(fr) && RefOk(fr, r) && IdOf(fr, r) !in hit && Pooled(fr, r)
    requires t == if r.InLost? then Aged(Outcome(motion, fr, hit, r), fr.now, limit) else Outcome(motion, fr, hit, r)
    ensures DriftsOn(motion, fr.now, limit, At(fr.tracked, fr.lost, r), r.InLost?, t)
  {
  }

  lemma StepStarts<K>(motion: Motion<K>, limit: int, s: Snapshot<K>, m: Moment<K>, s': Snapshot<K>)
    requires FrameStep(motion, limit, s, m, s')
    ensures Start(s.Begin(m.objects))
  {
    BeginFrame(s.Begin(m.objects), Ids(s.removed), limit);
  }

  lemma StepFates<K>(motion: Motion<K>, limit: int, s: Snapshot<K>, m: Moment<K>, s': Snapshot<K>)
    requires FrameStep(motion, limit, s, m, s')
    ensures forall t :: t in s'.tracked ==> TrackedFate(motion, s.Begin(m.objects), m.hit, t)
    ensures forall t :: t in s'.lost ==> LostFate(motion, s.Begin(m.objects), m.hit, limit, t)
  {
    hide TrackedFate, LostFate, DroppedA, DroppedB, Steady, Retired;
    KeptMembers(m.all_tracked, DroppedA(m.all_tracked, m.all_lost));
    KeptMembers(m.all_lost, DroppedB(m.all_tracked, m.all_lost));
  }

  /** Every tracked track that is not new follows its own object. */
  lemma MatchedTrack<K>(motion: Motion<K>, limit: int, s: Snapshot<K>, m: Moment<K>, s': Snapshot<K>, t: Track<K>)
    returns (u: Track<K>)
    requires FrameStep(motion, limit, s, m, s') && t in s'.tracked && t.track_id <= s.count
    ensures (u in s.tracked || u in s.lost) && Owns(m, t.track_id)
    ensures FollowsObject(motion, s'.now, u, u in s.lost || u.is_activated, m.objects[m.hit[t.track_id]], t)
  {
    var fr := s.Begin(m.objects);
    StepStarts(motion, limit, s, m, s');
    StepFates(motion, limit, s, m, s');
    assert s'.now == fr.now && TrackedFate(motion, fr, m.hit, t);
    hide FrameStep, Outcome, FollowsObject;
    var r :| Fated(motion, fr, m.hit, r, t) && IdOf(fr, r) in m.hit;
    u := At(s.tracked, s.lost, r);
    OutcomeFollows(motion, fr, m.hit, r);
    PooledExactly(fr, r);
  }

  lemma PooledExactly<K>(fr: Frame<K>, r: Ref)
    requires Start(fr) && RefOk(fr, r)
    ensures Pooled(fr, r) <==> At(fr.tracked, fr.lost, r) in fr.lost || At(fr.tracked, fr.lost, r).is_activated
    ensures r.InLost? <==> At(fr.tracked, fr.lost, r) in fr.lost
  {
  }

  /** Every tracked track that is new was made from its own object. */
  lemma NewTrack<K>(motion: Motion<K>, limit: int, s: Snapshot<K>, m: Moment<K>, s': Snapshot<K>, t: Track<K>)
    requires FrameStep(motion, limit, s, m, s') && t in s'.tracked && t.track_id > s.count
    ensures Owns(m, t.track_id) && StartsAt(motion, s'.now, m.objects[m.hit[t.track_id]], t)
  {
    var fr := s.Begin(m.objects);
    StepStarts(motion, limit, s, m, s');
    StepFates(motion, limit, s, m, s');
    assert s'.now == fr.now && TrackedFate(motion, fr, m.hit, t);
    hide FrameStep;
    if r :| Fated(motion, fr, m.hit, r, t) {
      IdsTellRefsApart(fr, r, r);
    }
  }

  /** Every lost track was moved on without an object; one that was lost before is removed exactly when overdue. */
  lemma LostTrack<K>(motion: Motion<K>, limit: int, s: Snapshot<K>, m: Moment<K>, s': Snapshot<K>, t: Track<K>)
    returns (u: Track<K>)
    requires FrameStep(motion, limit, s, m, s') && t in s'.lost
    ensures t.track_id !in m.hit && (u in s.lost || (u in s.tracked && u.is_activated))
    ensures DriftsOn(motion, s'.now, limit, u, u in s.lost, t)
  {
    var fr := s.Begin(m.objects);
    StepStarts(motion, limit, s, m, s');
    StepFates(motion, limit, s, m, s');
    assert s'.now == fr.now && LostFate(motion, fr, m.hit, limit, t);
    hide FrameStep, Outcome, DriftsOn;
    var r :| && RefOk(fr, r) && IdOf(fr, r) == t.track_id && IdOf(fr, r) !in m.hit && Pooled(fr, r)
             && t == if r.InLost? then Aged(Outcome(motion, fr, m.hit, r), fr.now, limit)
                     else Outcome(motion, fr, m.hit, r);
    u := At(s.tracked, s.lost, r);
    OutcomeDrifts(motion, fr, m.hit, limit, r, t);
    PooledExactly(fr, r);
  }

  ghost predicate AllMoving<K>(ts: seq<Track<K>>) {
    forall t :: t in ts ==> t.motion.Some?
  }

  /** Over every run from empty lists each track has a filter. */
  lemma {:induction false} EveryTrackMoves<K>(motion: Motion<K>, limit: int, ss: seq<Snapshot<K>>, ms: seq<Moment<K>>,
                                              n: nat)
    requires TrackerRun(motion, limit, ss, ms) && n < |ss| && ss[0].tracked == ss[0].lost == []
    ensures AllMoving(ss[n].tracked) && AllMoving(ss[n].lost)
  {
    hide FrameStep;
    if n > 0 {
      EveryTrackMoves(motion, limit, ss, ms, n - 1);
      forall t | t in ss[n].tracked
        ensures t.motion.Some?
      {
        if t.track_id <= ss[n - 1].count {
          var u := MatchedTrack(motion, limit, ss[n - 1], ms[n - 1], ss[n], t);
        } else {
          NewTrack(motion, limit, ss[n - 1], ms[n - 1], ss[n], t);
        }
      }
      forall t | t in ss[n].lost
        ensures t.motion.Some?
      {
        var u := LostTrack(motion, limit, ss[n - 1], ms[n - 1], ss[n], t);
      }
    }
  }

  // ----- the numbers

  /** A best matching of tracks and detections of one stage under a threshold, no pair beyond it. */
  ghost predicate BestUnder<K>(st: Stage<K>, thresh: real) {
    && AllHeld(st.before, st.refs)
    && var xs, ys := BoxesIn(st.before, st.refs), BoxesOf(st.dets);
       && LA.PartialMatching(st.m, |xs|, |ys|) && LA.BestMatching(Distances(xs, ys), thresh, st.m, |ys|)
       && forall k :: 0 <= k < |st.m| && st.m[k] >= 0 ==> Distance(xs[k], ys[st.m[k]]) <= thresh
  }

  lemma ChosenIsBest<K>(fr: Frame<K>, st: Stage<K>, thresh: real, hit0: Hits)
    requires Chosen(fr, st, thresh, hit0)
    ensures BestUnder(st, thresh)
  {
    var xs, ys := BoxesIn(st.before, st.refs), BoxesOf(st.dets);
    forall k | 0 <= k < |st.m| && st.m[k] >= 0
      ensures Distance(xs[k], ys[st.m[k]]) <= thresh
    {
      LA.PairsExactly(st.m, k, st.m[k]);
      var l :| 0 <= l < |LA.Pairs(st.m)| && LA.Pairs(st.m)[l] == (k, st.m[k]);
    }
  }

  /** The three associations match under 0.8, 0.5 and 0.7; the first takes the objects of score at least 0.5, the
      second all others. */
  lemma NumbersOfAFrame<K>(motion: Motion<K>, fr: Frame<K>, steps: Steps<K>, hit: Hits, count: int)
    requires Performs(motion, fr, steps, hit, count)
    ensures BestUnder(steps.s1, 0.8) && BestUnder(steps.s2, 0.5) && BestUnder(steps.s3, 0.7)
    ensures forall o :: 0 <= o < |fr.objects| ==> (o in steps.s1.src <==> fr.objects[o].prob >= 0.5)
    ensures forall o :: 0 <= o < |fr.objects| ==> (o in steps.s2.src <==> fr.objects[o].prob < 0.5)
  {
    hide Performed, Marked, AllPredicted, BestUnder, Chosen;
    ChosenIsBest(fr, steps.s1, MATCH_THRESH, map[]);
    ChosenIsBest(fr, steps.s2, SECOND_THRESH, steps.s1.after);
    ChosenIsBest(fr, steps.s3, THIRD_THRESH, steps.s2.after);
  }
}
