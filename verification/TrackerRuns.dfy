/** Whole runs of the tracker, frame after frame. */
module TrackerRuns {
  import opened Tracks
  import opened Duplicates
  import opened TrackerFrame
  import opened TrackerEffects
  import opened TrackerStages
  import opened TrackerOutcome
  import opened TrackerFinish

  /** The tracker between two frames. */
  datatype Snapshot<K> = Snapshot(now: int, count: int, tracked: seq<Track<K>>, lost: seq<Track<K>>,
                                  removed: seq<Track<K>>)
  {
    ghost function Known(): set<int> { Ids(tracked) + Ids(lost) }

    ghost function Begin(objects: seq<Object>): Frame<K> {
      Frame(now + 1, objects, tracked, lost, count)
    }
  }

  /** What happened in a frame: its objects, who got which, and the next lists with their duplicates. */
  datatype Moment<K> = Moment(objects: seq<Object>, hit: Hits, all_tracked: seq<Track<K>>, all_lost: seq<Track<K>>)

  ghost predicate AtRest<K>(s: Snapshot<K>, limit: int) {
    Steady(s.now, s.count, s.tracked, s.lost, Ids(s.removed), limit)
  }

  /** One frame leads from one snapshot to the next. */
  ghost predicate FrameStep<K>(motion: Motion<K>, limit: int, s: Snapshot<K>, m: Moment<K>, s': Snapshot<K>) {
    && AtRest(s, limit) && AtRest(s', limit) && s'.now == s.now + 1 && s.count <= s'.count
    && Fates(motion, s.Begin(m.objects), m.hit, limit, Ids(s.removed), m.all_tracked, m.all_lost)
    && Deduplicated(m.all_tracked, m.all_lost, s'.tracked, s'.lost)
    && Retired(s.Begin(m.objects), m.hit, limit, s.removed, s'.removed)
  }

  ghost predicate TrackerRun<K>(motion: Motion<K>, limit: int, ss: seq<Snapshot<K>>, ms: seq<Moment<K>>) {
    && |ss| == |ms| + 1
    && forall k :: 0 <= k < |ms| ==> FrameStep(motion, limit, ss[k], ms[k], ss[k + 1])
  }

  lemma FrameDone<K>(motion: Motion<K>, limit: int, s: Snapshot<K>, m: Moment<K>, s': Snapshot<K>)
    requires AtRest(s, limit) && AtRest(s', limit) && s'.now == s.now + 1 && s.count <= s'.count
    requires Fates(motion, s.Begin(m.objects), m.hit, limit, Ids(s.removed), m.all_tracked, m.all_lost)
    requires Deduplicated(m.all_tracked, m.all_lost, s'.tracked, s'.lost)
    requires Retired(s.Begin(m.objects), m.hit, limit, s.removed, s'.removed)
    ensures FrameStep(motion, limit, s, m, s')
  {
  }

  /** A track of the next lists: newborn, or a track of the last ones after its outcome. */
  ghost predicate ComesFrom<K>(s: Snapshot<K>, u: Track<K>) {
    || u.track_id > s.count
    || exists r :: Inherits(s, r, u)
  }

  ghost predicate Inherits<K>(s: Snapshot<K>, r: Ref, u: Track<K>) {
    var fr := s.Begin([]);
    RefOk(fr, r) && IdOf(fr, r) == u.track_id && At(s.tracked, s.lost, r).start_frame == u.start_frame
  }

  lemma OutcomeStart<K>(motion: Motion<K>, fr: Frame<K>, hit: Hits, r: Ref)
    requires RefOk(fr, r) && (IdOf(fr, r) in hit ==> 0 <= hit[IdOf(fr, r)] < |fr.objects|)
    ensures Outcome(motion, fr, hit, r).start_frame == At(fr.tracked, fr.lost, r).start_frame
  {
  }

  lemma FateComesFrom<K>(motion: Motion<K>, limit: int, s: Snapshot<K>, m: Moment<K>, u: Track<K>)
    requires var fr := s.Begin(m.objects); TrackedFate(motion, fr, m.hit, u) || LostFate(motion, fr, m.hit, limit, u)
    ensures ComesFrom(s, u)
  {
    hide Outcome;
    var fr := s.Begin(m.objects);
    if r :| Fated(motion, fr, m.hit, r, u) {
      OutcomeStart(motion, fr, m.hit, r);
      assert Inherits(s, r, u);
    } else if LostFate(motion, fr, m.hit, limit, u) {
      var r :| && RefOk(fr, r) && IdOf(fr, r) == u.track_id && IdOf(fr, r) !in m.hit && Pooled(fr, r)
               && u == if r.InLost? then Aged(Outcome(motion, fr, m.hit, r), fr.now, limit)
                       else Outcome(motion, fr, m.hit, r);
      OutcomeStart(motion, fr, m.hit, r);
      assert Inherits(s, r, u);
    }
  }

  /** Every track after a frame comes from one before it, or is new. */
  lemma StepComesFrom<K>(motion: Motion<K>, limit: int, s: Snapshot<K>, m: Moment<K>, s': Snapshot<K>, u: Track<K>)
    requires FrameStep(motion, limit, s, m, s') && (u in s'.tracked || u in s'.lost)
    ensures ComesFrom(s, u)
  {
    hide TrackedFate, LostFate, DroppedA, DroppedB, Steady, ComesFrom;
    KeptMembers(m.all_tracked, DroppedA(m.all_tracked, m.all_lost));
    KeptMembers(m.all_lost, DroppedB(m.all_tracked, m.all_lost));
    FateComesFrom(motion, limit, s, m, u);
  }

  lemma KnownTrack<K>(s: Snapshot<K>, a: int) returns (u: Track<K>)
    requires a in s.Known()
    ensures (u in s.tracked || u in s.lost) && u.track_id == a
  {
    if a in Ids(s.tracked) {
      var i := IdAt(s.tracked, a);
      u := s.tracked[i];
    } else {
      var i := IdAt(s.lost, a);
      u := s.lost[i];
    }
  }

  lemma TrackKnown<K>(s: Snapshot<K>, u: Track<K>)
    requires u in s.tracked || u in s.lost
    ensures u.track_id in s.Known()
  {
    IdsOf(s.tracked);
    IdsOf(s.lost);
  }

  /** What a track that is not new was before the frame. */
  lemma Forerunner<K>(motion: Motion<K>, limit: int, s: Snapshot<K>, m: Moment<K>, s': Snapshot<K>, u: Track<K>)
    returns (v: Track<K>)
    requires FrameStep(motion, limit, s, m, s') && (u in s'.tracked || u in s'.lost) && u.track_id <= s.count
    ensures (v in s.tracked || v in s.lost) && v.track_id == u.track_id && v.start_frame == u.start_frame
  {
    hide FrameStep;
    StepComesFrom(motion, limit, s, m, s', u);
    var r :| Inherits(s, r, u);
    v := At(s.tracked, s.lost, r);
  }

  /** The identifiers after a frame were there before it, or are new. */
  lemma StepIds<K>(motion: Motion<K>, limit: int, s: Snapshot<K>, m: Moment<K>, s': Snapshot<K>, a: int)
    requires FrameStep(motion, limit, s, m, s') && a in s'.Known()
    ensures a in s.Known() || a > s.count
  {
    hide FrameStep, Snapshot<K>.Known;
    var u := KnownTrack(s', a);
    if a <= s.count {
      var v := Forerunner(motion, limit, s, m, s', u);
      TrackKnown(s, v);
    }
  }

  lemma {:induction false} CountGrows<K>(motion: Motion<K>, limit: int, ss: seq<Snapshot<K>>, ms: seq<Moment<K>>,
                                         k: nat, n: nat)
    requires TrackerRun(motion, limit, ss, ms) && k <= n < |ss|
    ensures ss[k].count <= ss[n].count
  {
    if k < n {
      CountGrows(motion, limit, ss, ms, k, n - 1);
      assert FrameStep(motion, limit, ss[n - 1], ms[n - 1], ss[n]);
    }
  }

  /** Over every run: an identifier that has left both lists never comes back. */
  lemma {:induction false} GoneForGood<K>(motion: Motion<K>, limit: int, ss: seq<Snapshot<K>>, ms: seq<Moment<K>>,
                                          k: nat, n: nat, a: int)
    requires TrackerRun(motion, limit, ss, ms) && k <= n < |ss|
    requires a <= ss[k].count && a !in ss[k].Known()
    ensures a !in ss[n].Known()
  {
    hide FrameStep;
    if k < n {
      GoneForGood(motion, limit, ss, ms, k, n - 1, a);
      CountGrows(motion, limit, ss, ms, k, n - 1);
      if a in ss[n].Known() {
        StepIds(motion, limit, ss[n - 1], ms[n - 1], ss[n], a);
      }
    }
  }

  lemma SameIdSameTrack<K>(s: Snapshot<K>, limit: int, t: Track<K>, u: Track<K>)
    requires AtRest(s, limit) && (t in s.tracked || t in s.lost) && (u in s.tracked || u in s.lost)
    requires t.track_id == u.track_id
    ensures t == u
  {
  }

  /** Over every run: an identifier names one track, from its birth until it is gone. */
  lemma {:induction false} OneTrackPerId<K>(motion: Motion<K>, limit: int, ss: seq<Snapshot<K>>, ms: seq<Moment<K>>,
                                            k: nat, n: nat, t: Track<K>, u: Track<K>)
    requires TrackerRun(motion, limit, ss, ms) && k <= n < |ss| && AtRest(ss[k], limit)
    requires (t in ss[k].tracked || t in ss[k].lost) && (u in ss[n].tracked || u in ss[n].lost)
    requires t.track_id == u.track_id
    ensures t.start_frame == u.start_frame
  {
    if k == n {
      SameIdSameTrack(ss[k], limit, t, u);
    } else {
      hide FrameStep, AtRest;
      RestCount(ss[k], limit, t);
      CountGrows(motion, limit, ss, ms, k, n - 1);
      var v := Forerunner(motion, limit, ss[n - 1], ms[n - 1], ss[n], u);
      OneTrackPerId(motion, limit, ss, ms, k, n - 1, t, v);
    }
  }

  lemma RestCount<K>(s: Snapshot<K>, limit: int, t: Track<K>)
    requires AtRest(s, limit) && (t in s.tracked || t in s.lost)
    ensures t.track_id <= s.count
  {
  }
}
