/** `BYTETracker`: the per-frame transition of the multi-object tracker. */
module ByteTracker {
  import opened Permutations
  import opened Iou
  import opened Tracks
  import opened Duplicates
  import opened Association
  import opened TrackerFrame
  import opened TrackerSteps
  import opened TrackerEffects
  import opened TrackerStages
  import opened TrackerFinish
  import opened TrackerOutcome
  import opened TrackerRuns

  class BYTETracker<K> {
    const motion: Motion<K>
    const max_time_lost: int
    var frame_id: int
    var tracked: seq<Track<K>>
    var lost: seq<Track<K>>
    var removed: seq<Track<K>>
    /** The last identifier issued by `next_id`. */
    var count: int

    constructor (motion: Motion<K>, max_time_lost: int)
      ensures Valid()
      ensures this.motion == motion && this.max_time_lost == max_time_lost
      ensures frame_id == 0 && count == 0 && tracked == lost == removed == []
    {
      this.motion := motion;
      this.max_time_lost := max_time_lost;
      frame_id, count := 0, 0;
      tracked, lost, removed := [], [], [];
    }

    /** Updates or re-activates the track at one place with its detection; gives back a copy. */
    method Revise(r: Ref, det: Track<K>, reactivate: bool, ghost fr: Frame<K>, ghost hit: Hits, ghost o: int)
      returns (copy: Track<K>)
      requires Start(fr) && frame_id == fr.now && Midway(fr, hit, tracked, lost)
      requires RefOk(fr, r) && IdOf(fr, r) !in hit && Unused(hit, o) && 0 <= o < |fr.objects|
      requires det.score == fr.objects[o].prob
      modifies this`tracked, this`lost
      ensures Midway(fr, hit[IdOf(fr, r) := o], tracked, lost)
      ensures Good(fr, hit[IdOf(fr, r) := o], copy) && copy.track_id == IdOf(fr, r)
      ensures copy == At(tracked, lost, r) ==
              (if reactivate then old(At(tracked, lost, r)).ReActivate(motion, det, frame_id)
                                               else old(At(tracked, lost, r)).Update(motion, det, frame_id))
      ensures forall i :: 0 <= i < |tracked| && InTracked(i) != r ==> tracked[i] == old(tracked[i])
      ensures forall i :: 0 <= i < |lost| && InLost(i) != r ==> lost[i] == old(lost[i])
    {
      HitKeeps(fr, hit, IdOf(fr, r), o);
      var t := At(tracked, lost, r);
      copy := if reactivate then t.ReActivate(motion, det, frame_id) else t.Update(motion, det, frame_id);
      match r {
        case InTracked(i) => tracked := tracked[i := copy];
        case InLost(i) => lost := lost[i := copy];
      }
    }

    /** Applies one pair of an association: the track is updated, or re-activated if it was not in state Tracked. */
    method ApplyPair(refs: seq<Ref>, dets: seq<Track<K>>, matches: seq<(int, int)>, k: nat, only_update: bool,
                     activated0: seq<Track<K>>, refind0: seq<Track<K>>,
                     ghost fr: Frame<K>, ghost hit0: Hits, ghost hit: Hits, ghost src: seq<int>)
      returns (activated: seq<Track<K>>, refind: seq<Track<K>>, ghost hit': Hits)
      requires Start(fr) && frame_id == fr.now && Midway(fr, hit, tracked, lost)
      requires Pairing(fr, hit0, refs, dets, src, matches) && k < |matches|
      requires refs[matches[k].0].InTracked? ==> tracked[refs[matches[k].0].i].state == Tracked
      requires only_update ==> refs[matches[k].0].InTracked?
      requires Gathered(fr, hit, activated0, refind0) && Progress(fr, hit0, hit, refs, src, matches[..k])
      modifies this`tracked, this`lost
      ensures Midway(fr, hit', tracked, lost)
      ensures Gathered(fr, hit', activated, refind) && Progress(fr, hit0, hit', refs, src, matches[..k + 1])
      ensures Extends(hit, hit') && Untouched(hit', old(tracked), tracked) && Untouched(hit', old(lost), lost)
      ensures only_update ==> refind == refind0
      ensures OnePlace(motion, frame_id, only_update, refs[matches[k].0], dets[matches[k].1],
                       Lists(old(tracked), old(lost)), Lists(tracked, lost))
      ensures (activated, refind) == var copy := At(tracked, lost, refs[matches[k].0]);
                                     if refs[matches[k].0].InLost? then (activated0, refind0 + [copy])
                                     else (activated0 + [copy], refind0)
    {
      var (row, col) := matches[k];
      NextIsFree(fr, hit0, hit, refs, src, matches, k);
      ApplyNext(fr, hit0, hit, refs, src, Firsts(matches[..k]), Seconds(matches[..k]), row, col);
      FirstsAppend(matches, k);
      RecordNext(fr, hit, refs, src, matches, k);
      var r := refs[row];
      var reactivate := !only_update && At(tracked, lost, r).state != Tracked;
      assert reactivate == r.InLost?;
      var copy := Revise(r, dets[col], reactivate, fr, hit, src[col]);
      GatherOne(fr, hit, r, src[col], copy, activated0, refind0);
      activated, refind := activated0, refind0;
      if reactivate {
        refind := refind + [copy];
      } else {
        activated := activated + [copy];
      }
      hit' := hit[IdOf(fr, refs[row]) := src[col]];
    }

    /** Applies the pairs of one association. In the third association every track is simply updated. */
    method UpdateMatched(refs: seq<Ref>, dets: seq<Track<K>>, matches: seq<(int, int)>, only_update: bool,
                         activated0: seq<Track<K>>, refind0: seq<Track<K>>,
                         ghost fr: Frame<K>, ghost hit0: Hits, ghost src: seq<int>)
      returns (activated: seq<Track<K>>, refind: seq<Track<K>>, ghost hit: Hits)
      requires Start(fr) && frame_id == fr.now && Midway(fr, hit0, tracked, lost)
      requires Pairing(fr, hit0, refs, dets, src, matches)
      requires forall k :: 0 <= k < |refs| && refs[k].InTracked? ==> tracked[refs[k].i].state == Tracked
      requires only_update ==> forall k :: 0 <= k < |refs| ==> refs[k].InTracked?
      requires Gathered(fr, hit0, activated0, refind0)
      modifies this`tracked, this`lost
      ensures Midway(fr, hit, tracked, lost) && Gathered(fr, hit, activated, refind)
      ensures Progress(fr, hit0, hit, refs, src, matches)
      ensures Untouched(hit, old(tracked), tracked) && Untouched(hit, old(lost), lost)
      ensures only_update ==> refind == refind0
      ensures Booked(motion, frame_id, only_update, refs, dets, matches, Lists(old(tracked), old(lost)),
                     Lists(tracked, lost), activated0, refind0, activated, refind)
    {
      hide Booked, OnePlace, Good;
      activated, refind, hit := activated0, refind0, hit0;
      assert matches[..0] == [];
      NothingBooked(motion, frame_id, only_update, refs, dets, Lists(tracked, lost), activated, refind);
      for k := 0 to |matches|
        invariant Booked(motion, frame_id, only_update, refs, dets, matches[..k], Lists(old(tracked), old(lost)),
                         Lists(tracked, lost), activated0, refind0, activated, refind)
        invariant Midway(fr, hit, tracked, lost) && Gathered(fr, hit, activated, refind)
        invariant Progress(fr, hit0, hit, refs, src, matches[..k])
        invariant Untouched(hit, old(tracked), tracked) && Untouched(hit, old(lost), lost)
        invariant only_update ==> refind == refind0
      {
        PairStillWaiting(fr, hit0, hit, old(tracked), tracked, refs, dets, src, matches, k);
        ghost var mid, a, r := Lists(tracked, lost), activated, refind;
        activated, refind, hit := ApplyPair(refs, dets, matches, k, only_update, activated, refind, fr, hit0, hit, src);
        BookedNext(motion, frame_id, only_update, refs, dets, matches, k, Lists(old(tracked), old(lost)), mid,
                   Lists(tracked, lost), activated0, refind0, a, r);
      }
      assert matches[..|matches|] == matches;
    }

    /** Splits the tracked list and joins its activated tracks with the lost list. */
    method BuildPools(ghost fr: Frame<K>) returns (pool: seq<Ref>, unconfirmed: seq<Ref>)
      requires Start(fr) && tracked == fr.tracked && lost == fr.lost
      ensures pool == FirstPool(fr) && unconfirmed == Places(fr.tracked, false)
    {
      hide Known, Start, Places, LostPlaces, Ids;
      pool, unconfirmed := [], [];
      NoPlaces(tracked);
      var present: set<int> := {};
      for i := 0 to |tracked|
        invariant pool == Places(tracked[..i], true) && unconfirmed == Places(tracked[..i], false)
        invariant present <= Ids(tracked[..i])
      {
        PlacesNext(tracked, i, true);
        PlacesNext(tracked, i, false);
        IdsNext(tracked, i);
        if !tracked[i].is_activated {
          unconfirmed := unconfirmed + [InTracked(i)];
        } else {
          present := present + {tracked[i].track_id};
          pool := pool + [InTracked(i)];
        }
      }
      assert tracked[..|tracked|] == tracked;
      ghost var confirmed := pool;
      assert pool == confirmed + LostPlaces(0);
      for i := 0 to |lost|
        invariant pool == confirmed + LostPlaces(i) && present <= Ids(tracked) + Ids(lost[..i])
      {
        IdsNext(lost, i);
        LostIsAbsent(fr, i);
        if lost[i].track_id !in present {
          present := present + {lost[i].track_id};
          pool := pool + [InLost(i)];
        }
        LostPlacesNext(i);
      }
    }

    /** `multi_predict`: moves every track of the pool one frame on. */
    method MultiPredict(pool: seq<Ref>, ghost fr: Frame<K>)
      requires Start(fr) && tracked == fr.tracked && lost == fr.lost
      requires RefsOk(fr, pool)
      modifies this`tracked, this`lost
      ensures Midway(fr, map[], tracked, lost)
      ensures forall i :: 0 <= i < |tracked| ==> tracked[i].state == Tracked
      ensures forall r :: RefOk(fr, r) ==> At(tracked, lost, r) == Predicted(motion, fr, r, r in pool)
    {
      hide Carried, Good;
      NothingHit(fr);
      for k := 0 to |pool|
        invariant Midway(fr, map[], tracked, lost)
        invariant forall i :: 0 <= i < |tracked| ==> tracked[i].state == Tracked
        invariant forall r :: RefOk(fr, r) ==> At(tracked, lost, r) == Predicted(motion, fr, r, r in pool[..k])
      {
        assert pool[..k + 1] == pool[..k] + [pool[k]];
        assert pool[k] !in pool[..k];
        PredictKeeps(motion, fr, tracked, lost, pool[k]);
        match pool[k] {
          case InTracked(i) => tracked := tracked[i := tracked[i].Predict(motion)];
          case InLost(i) => lost := lost[i := lost[i].Predict(motion)];
        }
      }
      assert pool[..|pool|] == pool;
    }

    method BoxesAt(refs: seq<Ref>, ghost fr: Frame<K>, ghost hit: Hits) returns (bs: seq<Box>)
      requires Midway(fr, hit, tracked, lost) && RefsOk(fr, refs)
      ensures |bs| == |refs|
      ensures forall k :: 0 <= k < |refs| ==> bs[k] == At(tracked, lost, refs[k]).tlbr
    {
      bs := [];
      for k := 0 to |refs|
        invariant |bs| == k
        invariant forall l :: 0 <= l < k ==> bs[l] == At(tracked, lost, refs[l]).tlbr
      {
        bs := bs + [At(tracked, lost, refs[k]).tlbr];
      }
    }

    /** Matches the tracks at some places with detections. */
    method AssociateRefs(refs: seq<Ref>, dets: seq<Track<K>>, thresh: real, ghost fr: Frame<K>, ghost hit: Hits,
                         ghost src: seq<int>)
      returns (matches: seq<(int, int)>, ua: seq<int>, ub: seq<int>, ghost xs: seq<Box>, ghost ys: seq<Box>,
               ghost m: seq<int>)
      requires Midway(fr, hit, tracked, lost) && RefsOk(fr, refs) && Detected(fr.objects, dets, src)
      requires 0.0 <= thresh <= 1.0
      ensures Associated(matches, ua, ub, |refs|, |dets|)
      ensures |xs| == |refs| && forall k :: 0 <= k < |refs| ==> xs[k] == At(tracked, lost, refs[k]).tlbr
      ensures |ys| == |dets| && forall k :: 0 <= k < |dets| ==> ys[k] == dets[k].tlbr
      ensures Optimal(xs, ys, thresh, m, matches)
    {
      var boxes := BoxesAt(refs, fr, hit);
      var detected := Boxes(dets);
      xs, ys := boxes, detected;
      matches, ua, ub, m := Associate(boxes, detected, thresh);
    }

    /** The unmatched tracks of the pool that are in state Tracked. */
    method StillTracked(pool: seq<Ref>, ua: seq<int>, ghost fr: Frame<K>, ghost hit: Hits) returns (refs: seq<Ref>)
      requires Start(fr) && Midway(fr, hit, tracked, lost) && RefsOk(fr, pool) && Distinct(ua) && Within(ua, |pool|)
      requires forall k :: 0 <= k < |ua| ==> IdOf(fr, pool[ua[k]]) !in hit
      requires forall k :: 0 <= k < |pool| && pool[k].InTracked? && IdOf(fr, pool[k]) !in hit ==>
                 tracked[pool[k].i].state == Tracked
      ensures Waiting(fr, hit, tracked, refs)
      ensures forall k :: 0 <= k < |refs| ==> refs[k] in pool
      ensures forall k :: 0 <= k < |ua| && pool[ua[k]].InTracked? ==> pool[ua[k]] in refs
      ensures refs == TrackedAt(pool, ua)
    {
      hide Good, Known, Waiting;
      refs := [];
      for k := 0 to |ua|
        invariant refs == TrackedAt(pool, ua[..k])
      {
        assert ua[..k + 1][..k] == ua[..k];
        if At(tracked, lost, pool[ua[k]]).state == Tracked {
          refs := refs + [pool[ua[k]]];
        }
      }
      assert ua[..|ua|] == ua;
      LeftWaiting(fr, hit, tracked, pool, ua);
    }

    /** One association: matches tracks with detections and applies the pairs. */
    method RunStage(refs: seq<Ref>, dets: seq<Track<K>>, thresh: real, only_update: bool, activated0: seq<Track<K>>,
                    refind0: seq<Track<K>>, ghost fr: Frame<K>, ghost hit0: Hits, ghost src: seq<int>)
      returns (activated: seq<Track<K>>, refind: seq<Track<K>>, ua: seq<int>, ub: seq<int>,
               ghost matches: seq<(int, int)>, ghost hit: Hits, ghost stage: Stage<K>)
      requires Start(fr) && frame_id == fr.now && Midway(fr, hit0, tracked, lost) && HitIds(fr, hit0, fr.count)
      requires Entering(fr, hit0, refs, dets, src)
      requires forall k :: 0 <= k < |refs| && refs[k].InTracked? ==> tracked[refs[k].i].state == Tracked
      requires only_update ==> forall k :: 0 <= k < |refs| ==> refs[k].InTracked?
      requires Gathered(fr, hit0, activated0, refind0) && 0.0 <= thresh <= 1.0
      modifies this`tracked, this`lost
      ensures Midway(fr, hit, tracked, lost) && Gathered(fr, hit, activated, refind) && HitIds(fr, hit, fr.count)
      ensures Extends(hit0, hit) && Untouched(hit, old(tracked), tracked) && |lost| == |old(lost)|
      ensures forall i :: 0 <= i < |tracked| ==> tracked[i].track_id == fr.tracked[i].track_id
      ensures Associated(matches, ua, ub, |refs|, |src|) && Progress(fr, hit0, hit, refs, src, matches)
      ensures forall k :: 0 <= k < |refs| ==> (IdOf(fr, refs[k]) !in hit <==> k in ua)
      ensures Ran(motion, fr, stage, thresh, hit0, only_update, activated0, refind0)
      ensures stage == Stage(refs, dets, src, stage.m, ua, ub, Lists(old(tracked), old(lost)),
                             Lists(tracked, lost), hit, activated, refind)
      ensures only_update ==> refind == refind0
    {
      hide Booked, Optimal, Good, Carried, Known, Recorded;
      var pairs;
      ghost var xs, ys, m;
      pairs, ua, ub, xs, ys, m := AssociateRefs(refs, dets, thresh, fr, hit0, src);
      activated, refind, hit := UpdateMatched(refs, dets, pairs, only_update, activated0, refind0, fr, hit0, src);
      matches := pairs;
      SameTracks(fr, hit, tracked, lost);
      AppliedRows(fr, hit0, hit, refs, src, matches, ua, ub);
      AppliedIds(fr, hit0, hit, refs, src, Firsts(matches), Seconds(matches));
      stage := Stage(refs, dets, src, m, ua, ub, Lists(old(tracked), old(lost)), Lists(tracked, lost), hit, activated,
                     refind);
      StageChosen(fr, stage, xs, ys, matches, thresh, hit0);
    }

    /** Builds the pools and moves the tracks of the first one on. */
    method PredictPool(ghost fr: Frame<K>) returns (pool: seq<Ref>, unconfirmed: seq<Ref>)
      requires Start(fr) && tracked == fr.tracked && lost == fr.lost
      modifies this`tracked, this`lost
      ensures pool == FirstPool(fr) && unconfirmed == Places(fr.tracked, false)
      ensures Pools(fr, pool, unconfirmed) && RefsOk(fr, pool) && AllPooled(fr, pool) && Unconfirmed(fr, unconfirmed)
      ensures Midway(fr, map[], tracked, lost) && AllPredicted(motion, fr, Lists(tracked, lost))
      ensures forall i :: 0 <= i < |tracked| ==> tracked[i].state == Tracked
    {
      hide Predicted, Carried, Good;
      pool, unconfirmed := BuildPools(fr);
      PoolsExactly(fr, pool, unconfirmed);
      MultiPredict(pool, fr);
    }

    /** First association: activated and lost tracks with the detections of high score. */
    method FirstAssociation(high: seq<Track<K>>, low: seq<Track<K>>, ghost fr: Frame<K>, ghost highSrc: seq<int>,
                            ghost lowSrc: seq<int>)
      returns (activated: seq<Track<K>>, refind: seq<Track<K>>, r_tracked: seq<Ref>, unconfirmed: seq<Ref>,
               detections_cp: seq<Track<K>>, ghost cpSrc: seq<int>, ghost hit: Hits, ghost stage: Stage<K>)
      requires Start(fr) && frame_id == fr.now && tracked == fr.tracked && lost == fr.lost
      requires Detected(fr.objects, high, highSrc) && SplitOff(fr.objects, highSrc, true)
      requires Detected(fr.objects, low, lowSrc) && SplitOff(fr.objects, lowSrc, false)
      modifies this`tracked, this`lost
      ensures Midway(fr, hit, tracked, lost) && Gathered(fr, hit, activated, refind)
      ensures Waiting(fr, hit, tracked, r_tracked) && Waiting(fr, hit, tracked, unconfirmed)
      ensures forall k :: 0 <= k < |unconfirmed| ==> unconfirmed[k] !in r_tracked
      ensures DealtWith(fr, hit, tracked, r_tracked + unconfirmed)
      ensures Available(fr, hit, low, lowSrc) && Available(fr, hit, detections_cp, cpSrc)
      ensures forall j :: 0 <= j < |cpSrc| ==> cpSrc[j] !in lowSrc
      ensures HitIds(fr, hit, fr.count)
      ensures Accounted(fr, hit, r_tracked + unconfirmed, {}) && Served(hit, highSrc, cpSrc)
      ensures FirstStage(motion, fr, stage) && StillWanted(fr, hit, r_tracked) && Unconfirmed(fr, unconfirmed)
      ensures Within(stage.ua, |stage.refs|) && r_tracked == TrackedAt(stage.refs, stage.ua)
      ensures unconfirmed == Places(fr.tracked, false)
      ensures stage.src == highSrc && LeftBy(highSrc, stage.ub, cpSrc)
      ensures Reached(stage, hit, activated, refind) && stage.revised == Lists(tracked, lost)
    {
      hide Booked, Chosen, Good, Carried, SplitOff, Recorded, Known, AllPredicted, AllPooled;
      hide Pools, Start, Applied, Waiting, Places, FirstPool, TrackedAt;
      var pool, ua, ub;
      SplitApart(fr.objects, highSrc, lowSrc);
      pool, unconfirmed := PredictPool(fr);
      ghost var matches := [];
      activated, refind, ua, ub, matches, hit, stage :=
        RunStage(pool, high, MATCH_THRESH, false, [], [], fr, map[], highSrc);
      r_tracked := StillTracked(pool, ua, fr, hit);
      WantedExactly(fr, hit, tracked, pool, ua, r_tracked);
      detections_cp, cpSrc := Select(high, ub, fr.objects, highSrc);
      AfterFirst(fr, hit, tracked, pool, unconfirmed, r_tracked, highSrc, lowSrc, cpSrc, matches, ua, ub);
      ServedBy(fr, hit, pool, highSrc, matches, ua, ub, cpSrc);
    }

    /** Marks the listed tracks lost and gives back copies of them. */
    method MarkLost(refs: seq<Ref>, ua: seq<int>, ghost fr: Frame<K>, ghost hit: Hits, ghost unconfirmed: seq<Ref>)
      returns (lost_stracks: seq<Track<K>>)
      requires Start(fr) && Midway(fr, hit, tracked, lost) && RefsOk(fr, refs) && RefsOk(fr, unconfirmed)
      requires Distinct(ua) && Within(ua, |refs|)
      requires forall k :: 0 <= k < |refs| ==> refs[k].InTracked? && refs[k] !in unconfirmed
      requires forall k :: 0 <= k < |ua| ==> IdOf(fr, refs[ua[k]]) !in hit && tracked[refs[ua[k]].i].state == Tracked
      modifies this`tracked
      ensures Midway(fr, hit, tracked, lost) && NewlyLost(fr, hit, lost_stracks, unconfirmed)
      ensures MarkedAs(fr, Lost, refs, ua, tracked, Ids(lost_stracks))
      ensures forall i :: 0 <= i < |tracked| && (InTracked(i) !in refs || tracked[i].track_id in hit) ==>
                tracked[i] == old(tracked[i])
      ensures Marked(Lost, refs, ua, old(tracked), tracked, lost_stracks)
    {
      hide Marked, MarkedAs, NewlyLost, Carried, Good, Known;
      lost_stracks := [];
      MarkNothing(Lost, refs, tracked);
      NobodyMarked(fr, hit, Lost, refs, unconfirmed, tracked, {});
      assert ua[..0] == [];
      for k := 0 to |ua|
        invariant Midway(fr, hit, tracked, lost) && NewlyLost(fr, hit, lost_stracks, unconfirmed)
        invariant Marked(Lost, refs, ua[..k], old(tracked), tracked, lost_stracks)
        invariant MarkedAs(fr, Lost, refs, ua[..k], tracked, Ids(lost_stracks))
        invariant forall l :: k <= l < |ua| ==> tracked[refs[ua[l]].i].state == Tracked
        invariant forall i :: 0 <= i < |tracked| && (InTracked(i) !in refs || tracked[i].track_id in hit) ==>
                    tracked[i] == old(tracked[i])
      {
        var i := refs[ua[k]].i;
        assert InTracked(i) == refs[ua[k]];
        MarkKeeps(fr, hit, tracked, lost, refs[ua[k]], Lost);
        MarkNext(Lost, refs, ua, k, old(tracked), tracked, lost_stracks);
        if tracked[i].state != Lost {
          var copy := tracked[i].(state := Lost);
          MarkedNext(fr, Lost, refs, ua, k, tracked, lost_stracks, copy);
          LostIsNew(fr, hit, lost_stracks, copy, unconfirmed, refs[ua[k]]);
          tracked := tracked[i := copy];
          lost_stracks := lost_stracks + [copy];
        }
      }
      assert ua[..|ua|] == ua;
    }

    /** Second association: tracks not matched so far with the detections of low score; the rest is lost. */
    method SecondAssociation(r_tracked: seq<Ref>, low: seq<Track<K>>, activated0: seq<Track<K>>, refind0: seq<Track<K>>,
                             ghost fr: Frame<K>, ghost hit0: Hits, ghost s1: Stage<K>, ghost lowSrc: seq<int>,
                             ghost unconfirmed: seq<Ref>, ghost cp: seq<Track<K>>, ghost cpSrc: seq<int>)
      returns (activated: seq<Track<K>>, refind: seq<Track<K>>, lost_stracks: seq<Track<K>>, ghost hit: Hits,
               ghost stage: Stage<K>)
      requires Start(fr) && frame_id == fr.now && HitIds(fr, hit0, fr.count)
      requires Midway(fr, hit0, tracked, lost) && Gathered(fr, hit0, activated0, refind0)
      requires Waiting(fr, hit0, tracked, r_tracked) && Waiting(fr, hit0, tracked, unconfirmed)
      requires forall k :: 0 <= k < |unconfirmed| ==> unconfirmed[k] !in r_tracked
      requires DealtWith(fr, hit0, tracked, r_tracked + unconfirmed) && Accounted(fr, hit0, r_tracked + unconfirmed, {})
      requires Available(fr, hit0, low, lowSrc) && Available(fr, hit0, cp, cpSrc)
      requires forall j :: 0 <= j < |cpSrc| ==> cpSrc[j] !in lowSrc
      requires StillWanted(fr, hit0, r_tracked) && SplitOff(fr.objects, lowSrc, false)
      requires Within(s1.ua, |s1.refs|) && r_tracked == TrackedAt(s1.refs, s1.ua)
      requires Reached(s1, hit0, activated0, refind0) && s1.revised == Lists(tracked, lost)
      modifies this`tracked, this`lost
      ensures HitIds(fr, hit, fr.count)
      ensures Midway(fr, hit, tracked, lost) && Gathered(fr, hit, activated, refind)
      ensures Waiting(fr, hit, tracked, unconfirmed) && DealtWith(fr, hit, tracked, unconfirmed)
      ensures Available(fr, hit, cp, cpSrc) && NewlyLost(fr, hit, lost_stracks, unconfirmed)
      ensures Extends(hit0, hit) && Accounted(fr, hit, unconfirmed, Ids(lost_stracks))
      ensures SecondStage(motion, fr, s1, stage, lost_stracks, Lists(tracked, lost))
      ensures Reached(stage, hit, activated, refind)
    {
      hide Booked, Marked, Chosen, Good, Carried, Places, TrackedAt, StillWanted, Unconfirmed, LeftBy, SplitOff;
      hide Recorded, Detection, Applied;
      ghost var t0, matches := tracked, [];
      var ua, ub;
      SameTracks(fr, hit0, tracked, lost);
      activated, refind, ua, ub, matches, hit, stage :=
        RunStage(r_tracked, low, SECOND_THRESH, false, activated0, refind0, fr, hit0, lowSrc);
      ghost var t1 := tracked;
      AfterSecond(fr, hit0, hit, t0, t1, r_tracked, unconfirmed, lowSrc, cpSrc, matches, ua, ub);
      lost_stracks := MarkLost(r_tracked, ua, fr, hit, unconfirmed);
      SameTracks(fr, hit, tracked, lost);
      AfterMarkLost(fr, hit0, hit, t0, t1, tracked, r_tracked, unconfirmed, ua);
      AccountedNext(fr, hit0, hit, r_tracked, unconfirmed, ua, {}, Ids(lost_stracks));
    }

    /** Marks the listed tracks removed and gives back copies of them. */
    method MarkRemoved(refs: seq<Ref>, ua: seq<int>, ghost fr: Frame<K>, ghost hit: Hits)
      returns (removed_stracks: seq<Track<K>>)
      requires Start(fr) && Midway(fr, hit, tracked, lost) && RefsOk(fr, refs) && Distinct(ua) && Within(ua, |refs|)
      requires forall k :: 0 <= k < |refs| ==> refs[k].InTracked?
      requires forall k :: 0 <= k < |ua| ==> IdOf(fr, refs[ua[k]]) !in hit
      modifies this`tracked
      ensures Midway(fr, hit, tracked, lost)
      ensures MarkedAs(fr, Removed, refs, ua, tracked, Ids(removed_stracks))
      ensures forall i :: 0 <= i < |tracked| && (InTracked(i) !in refs || tracked[i].track_id in hit) ==>
                tracked[i] == old(tracked[i])
      ensures Marked(Removed, refs, ua, old(tracked), tracked, removed_stracks)
    {
      hide Marked, MarkedAs, NewlyLost, Carried, Good, Known;
      removed_stracks := [];
      MarkNothing(Removed, refs, tracked);
      NobodyMarked(fr, hit, Removed, refs, [], tracked, {});
      assert ua[..0] == [];
      for k := 0 to |ua|
        invariant Midway(fr, hit, tracked, lost)
        invariant Marked(Removed, refs, ua[..k], old(tracked), tracked, removed_stracks)
        invariant MarkedAs(fr, Removed, refs, ua[..k], tracked, Ids(removed_stracks))
        invariant forall i :: 0 <= i < |tracked| && (InTracked(i) !in refs || tracked[i].track_id in hit) ==>
                    tracked[i] == old(tracked[i])
      {
        var i := refs[ua[k]].i;
        assert InTracked(i) == refs[ua[k]];
        MarkKeeps(fr, hit, tracked, lost, refs[ua[k]], Removed);
        MarkNext(Removed, refs, ua, k, old(tracked), tracked, removed_stracks);
        var copy := tracked[i].(state := Removed);
        MarkedNext(fr, Removed, refs, ua, k, tracked, removed_stracks, copy);
        tracked := tracked[i := copy];
        removed_stracks := removed_stracks + [copy];
      }
      assert ua[..|ua|] == ua;
    }

    /** Third association: unconfirmed tracks with the high detections left over; the rest is removed. */
    method ThirdAssociation(unconfirmed: seq<Ref>, cp: seq<Track<K>>, activated0: seq<Track<K>>, refind: seq<Track<K>>,
                            ghost fr: Frame<K>, ghost hit0: Hits, ghost s1: Stage<K>, ghost s2: Stage<K>,
                            ghost cpSrc: seq<int>, ghost lost_stracks: seq<Track<K>>)
      returns (activated: seq<Track<K>>, removed_stracks: seq<Track<K>>, u_detection: seq<int>, ghost hit: Hits,
               ghost stage: Stage<K>)
      requires Start(fr) && frame_id == fr.now && HitIds(fr, hit0, fr.count)
      requires Midway(fr, hit0, tracked, lost) && Gathered(fr, hit0, activated0, refind)
      requires Waiting(fr, hit0, tracked, unconfirmed) && DealtWith(fr, hit0, tracked, unconfirmed)
      requires Available(fr, hit0, cp, cpSrc) && NewlyLost(fr, hit0, lost_stracks, unconfirmed)
      requires Accounted(fr, hit0, unconfirmed, Ids(lost_stracks))
      requires unconfirmed == Places(fr.tracked, false)
      requires Unconfirmed(fr, unconfirmed) && LeftBy(s1.src, s1.ub, cpSrc) && Reached(s2, hit0, activated0, refind)
      modifies this`tracked, this`lost
      ensures HitIds(fr, hit, fr.count)
      ensures Midway(fr, hit, tracked, lost) && Gathered(fr, hit, activated, refind)
      ensures DealtWith(fr, hit, tracked, []) && NewlyLost(fr, hit, lost_stracks, [])
      ensures Distinct(u_detection) && Within(u_detection, |cp|)
      ensures forall k :: 0 <= k < |u_detection| ==> Unused(hit, cpSrc[u_detection[k]])
      ensures forall j :: 0 <= j < |cpSrc| && j !in u_detection ==> !Unused(hit, cpSrc[j])
      ensures Extends(hit0, hit) && Accounted(fr, hit, [], Ids(lost_stracks) + Ids(removed_stracks))
      ensures ThirdStage(motion, fr, s1, s2, stage, removed_stracks, Lists(tracked, lost))
      ensures Reached(stage, hit, activated, refind) && stage.before == Lists(old(tracked), old(lost))
      ensures stage.dets == cp && stage.src == cpSrc && stage.ub == u_detection
    {
      hide Booked, Marked, Chosen, Good, Carried, Places, TrackedAt, StillWanted, Unconfirmed, LeftBy, SplitOff;
      hide Recorded, Detection, Applied;
      ghost var t0, matches := tracked, [];
      var ua, ub, same;
      SameTracks(fr, hit0, tracked, lost);
      activated, same, ua, ub, matches, hit, stage :=
        RunStage(unconfirmed, cp, THIRD_THRESH, true, activated0, refind, fr, hit0, cpSrc);
      ghost var t1 := tracked;
      AfterThird(fr, hit0, hit, unconfirmed, cpSrc, lost_stracks, matches, ua, ub);
      removed_stracks := MarkRemoved(unconfirmed, ua, fr, hit);
      SameTracks(fr, hit, tracked, lost);
      AfterMarkRemoved(fr, hit0, hit, t0, t1, tracked, unconfirmed, ua);
      AccountedNext(fr, hit0, hit, unconfirmed, [], ua, Ids(lost_stracks), Ids(removed_stracks));
      forall j | 0 <= j < |cpSrc| && j !in ub ensures !Unused(hit, cpSrc[j]) {
        MatchedIsUsed(fr, hit, unconfirmed, cpSrc, matches, ua, ub, j);
      }
      u_detection := ub;
    }

    /** Starts a track for every detection left over that scores high enough. */
    method Births(dets: seq<Track<K>>, u_detection: seq<int>, activated0: seq<Track<K>>, ghost refind: seq<Track<K>>,
                  ghost fr: Frame<K>, ghost hit0: Hits, ghost src: seq<int>, ghost lost_stracks: seq<Track<K>>)
      returns (activated: seq<Track<K>>, ghost hit: Hits, ghost born: seq<Track<K>>)
      requires Start(fr) && frame_id == fr.now && count == fr.count && HitIds(fr, hit0, count)
      requires Midway(fr, hit0, tracked, lost) && Gathered(fr, hit0, activated0, refind)
      requires DealtWith(fr, hit0, tracked, []) && NewlyLost(fr, hit0, lost_stracks, [])
      requires Detected(fr.objects, dets, src) && Distinct(u_detection) && Within(u_detection, |dets|)
      requires forall k :: 0 <= k < |u_detection| ==> Unused(hit0, src[u_detection[k]])
      modifies this`count
      ensures HitIds(fr, hit, count)
      ensures Midway(fr, hit, tracked, lost) && Gathered(fr, hit, activated, refind)
      ensures DealtWith(fr, hit, tracked, []) && NewlyLost(fr, hit, lost_stracks, [])
      ensures activated == activated0 + born && Delivering(motion, fr, hit0, hit, dets, src, u_detection, born, count)
    {
      hide Gathered, NewlyLost, Good, Carried, Delivering;
      activated, hit, born := activated0, hit0, [];
      assert u_detection[..0] == [];
      NobodyDelivered(motion, fr, hit, dets, src);
      for k := 0 to |u_detection|
        invariant activated == activated0 + born &&
                  Delivering(motion, fr, hit0, hit, dets, src, u_detection[..k], born, count)
        invariant fr.count <= count && HitIds(fr, hit, count)
        invariant Midway(fr, hit, tracked, lost) && Gathered(fr, hit, activated, refind)
        invariant DealtWith(fr, hit, tracked, []) && NewlyLost(fr, hit, lost_stracks, [])
        invariant forall l :: k <= l < |u_detection| ==> Unused(hit, src[u_detection[l]])
      {
        var track := dets[u_detection[k]];
        assert u_detection[..k + 1] == u_detection[..k] + [u_detection[k]];
        NewIdUnused(fr, hit, count + 1);
        DeliveredNext(motion, fr, hit0, hit, dets, src, u_detection[..k], born, count, u_detection[k]);
        if track.score < HIGH_THRESH {
          continue;
        }
        count := count + 1;
        track := track.Activate(motion, count, frame_id);
        BirthKeeps(fr, hit, count, src[u_detection[k]], track, tracked, lost, activated, refind, lost_stracks);
        activated, born := activated + [track], born + [track];
        hit := hit[count := src[u_detection[k]]];
      }
      assert u_detection[..|u_detection|] == u_detection;
    }

    /** Puts lost tracks beyond the limit on the list of removed ones; they stay in the lost list. */
    method Expire(removed0: seq<Track<K>>, ghost fr: Frame<K>, ghost hit: Hits) returns (removed_stracks: seq<Track<K>>)
      requires Start(fr) && frame_id == fr.now && Midway(fr, hit, tracked, lost)
      modifies this`lost
      ensures AllLeftLost(fr, hit, lost) && ExpiredListed(fr, hit, lost, max_time_lost, removed_stracks)
      ensures Ids(removed0) <= Ids(removed_stracks)
      ensures AgedAll(old(lost), lost, frame_id, max_time_lost)
      ensures removed_stracks == removed0 + Expired(old(lost), frame_id, max_time_lost)
    {
      removed_stracks := removed0;
      for i := 0 to |lost|
        invariant |lost| == |old(lost)|
        invariant forall l :: 0 <= l < i ==> lost[l] == Aged(old(lost[l]), frame_id, max_time_lost)
        invariant forall l :: i <= l < |lost| ==> lost[l] == old(lost[l])
        invariant removed_stracks == removed0 + Expired(old(lost)[..i], frame_id, max_time_lost)
      {
        assert old(lost)[..i + 1][..i] == old(lost)[..i];
        if frame_id - lost[i].frame_id > max_time_lost {
          lost := lost[i := lost[i].(state := Removed)];
          removed_stracks := removed_stracks + [lost[i]];
        }
      }
      assert old(lost)[..|lost|] == old(lost);
      AgedKeeps(fr, hit, tracked, old(lost), lost, removed0, max_time_lost);
    }

    /** What every frame leaves behind. */
    ghost predicate Valid()
      reads this
    {
      Steady(frame_id, count, tracked, lost, Ids(removed), max_time_lost)
    }

    ghost function Snap(): Snapshot<K>
      reads this
    {
      Snapshot(frame_id, count, tracked, lost, removed)
    }

    /** The tracks given to the caller: those confirmed by a second match, or born in the first frame. */
    method Output() returns (output: seq<Track<K>>)
      ensures output == Activated(tracked)
    {
      output := [];
      for i := 0 to |tracked|
        invariant output == Activated(tracked[..i])
      {
        assert tracked[..i + 1][..i] == tracked[..i];
        if tracked[i].is_activated {
          output := output + [tracked[i]];
        }
      }
      assert tracked[..|tracked|] == tracked;
    }

    /** Expires lost tracks, puts the next lists together and lists the removed tracks. */
    method NextLists(activated: seq<Track<K>>, refind: seq<Track<K>>, lost_stracks: seq<Track<K>>,
                     removed0: seq<Track<K>>, ghost fr: Frame<K>, ghost hit: Hits, ghost steps: Steps<K>)
      returns (next_tracked: seq<Track<K>>, next_lost: seq<Track<K>>)
      requires Start(fr) && frame_id == fr.now && Midway(fr, hit, tracked, lost) && Gathered(fr, hit, activated, refind)
      requires DealtWith(fr, hit, tracked, []) && NewlyLost(fr, hit, lost_stracks, [])
      requires Accounted(fr, hit, [], Ids(lost_stracks) + Ids(removed0))
      requires AllRecent(fr.lost, fr.now - 1, max_time_lost, Ids(removed))
      requires Ending(steps, Lists(tracked, lost), activated, refind, lost_stracks, removed0)
      modifies this`lost, this`removed
      ensures End(fr, hit, next_tracked, next_lost) && AllRecent(next_lost, fr.now, max_time_lost, Ids(removed))
      ensures Conserved(fr, Ids(next_tracked) + Ids(next_lost) + Ids(removed))
      ensures Concluded(steps, frame_id, max_time_lost, old(removed), next_tracked, next_lost, removed)
    {
      hide LeftLate, Expired, StillThere, Joint, Aged, AgedAll, Recent, RefoundListed, Conserved;
      ghost var lost0 := lost;
      var removed_stracks := Expire(removed0, fr, hit);
      AgedIds(lost0, lost, frame_id, max_time_lost);
      next_tracked := NextTracked(tracked, activated, refind, fr, hit, lost0);
      next_lost := NextLost(lost, next_tracked, lost_stracks, removed, removed_stracks, refind, max_time_lost, fr, hit);
      AllLeftLate(steps, lost, next_lost, frame_id, max_time_lost);
      NobodyVanishes(fr, hit, lost, Ids(next_tracked), Ids(next_lost), lost_stracks, removed, removed0,
                     removed_stracks);
      removed := removed + removed_stracks;
    }

    /** Ends the frame: the next lists, without duplicates. */
    method EndFrame(activated: seq<Track<K>>, refind: seq<Track<K>>, lost_stracks: seq<Track<K>>,
                    removed0: seq<Track<K>>, ghost fr: Frame<K>, ghost hit: Hits, ghost steps: Steps<K>)
      returns (ghost all_tracked: seq<Track<K>>, ghost all_lost: seq<Track<K>>)
      requires Start(fr) && frame_id == fr.now && Midway(fr, hit, tracked, lost) && Gathered(fr, hit, activated, refind)
      requires DealtWith(fr, hit, tracked, []) && NewlyLost(fr, hit, lost_stracks, [])
      requires Accounted(fr, hit, [], Ids(lost_stracks) + Ids(removed0))
      requires AllRecent(fr.lost, fr.now - 1, max_time_lost, Ids(removed))
      requires Ending(steps, Lists(tracked, lost), activated, refind, lost_stracks, removed0)
      modifies this`tracked, this`lost, this`removed
      ensures End(fr, hit, tracked, lost) && Apart(tracked, lost)
      ensures AllRecent(lost, fr.now, max_time_lost, Ids(removed))
      ensures Deduplicated(all_tracked, all_lost, tracked, lost)
      ensures Conserved(fr, Ids(all_tracked) + Ids(all_lost) + Ids(removed))
      ensures Concluded(steps, frame_id, max_time_lost, old(removed), all_tracked, all_lost, removed)
    {
      hide End, Apart, AllRecent, Conserved, Concluded, Start, Midway, Gathered, NewlyLost;
      var next_tracked, next_lost := NextLists(activated, refind, lost_stracks, removed0, fr, hit, steps);
      DropDuplicates(fr, hit, next_tracked, next_lost, max_time_lost, Ids(removed));
      tracked, lost := RemoveDuplicates(next_tracked, next_lost);
      all_tracked, all_lost := next_tracked, next_lost;
    }

    /** The three associations, the births and the end of the frame. */
    method ProcessFrame(objects: seq<Object>, ghost fr: Frame<K>)
      returns (ghost hit: Hits, ghost all_tracked: seq<Track<K>>, ghost all_lost: seq<Track<K>>, ghost steps: Steps<K>)
      requires Start(fr) && AllRecent(lost, fr.now - 1, max_time_lost, Ids(removed))
      requires fr == Frame(frame_id, objects, tracked, lost, count)
      modifies this`tracked, this`lost, this`removed, this`count
      ensures fr.count <= count && HitIds(fr, hit, count)
      ensures End(fr, hit, tracked, lost) && Apart(tracked, lost)
      ensures AllRecent(lost, fr.now, max_time_lost, Ids(removed))
      ensures Deduplicated(all_tracked, all_lost, tracked, lost)
      ensures Conserved(fr, Ids(all_tracked) + Ids(all_lost) + Ids(removed))
      ensures ConfidentServed(objects, hit) && BornConfident(fr, hit)
      ensures Performs(motion, fr, steps, hit, count)
      ensures Concluded(steps, fr.now, max_time_lost, old(removed), all_tracked, all_lost, removed)
    {
      hide FirstStage, SecondStage, ThirdStage, StillWanted, Unconfirmed, LeftBy, Concluded;
      hide Places, TrackedAt, SplitOff;
      hide Good, Carried, Conserved, End, Apart, Newborns, BornHits, Gathered, NewlyLost, Served;
      var high, low, highSrc, lowSrc := SplitDetections(objects);
      var activated, refind, r_tracked, unconfirmed, cp;
      ghost var cpSrc, s1, s2, s3;
      activated, refind, r_tracked, unconfirmed, cp, cpSrc, hit, s1 := FirstAssociation(high, low, fr, highSrc, lowSrc);
      var lost_stracks, removed_stracks, u_detection;
      ghost var hit1 := hit;
      activated, refind, lost_stracks, hit, s2 :=
        SecondAssociation(r_tracked, low, activated, refind, fr, hit, s1, lowSrc, unconfirmed, cp, cpSrc);
      ghost var hit2 := hit;
      activated, removed_stracks, u_detection, hit, s3 :=
        ThirdAssociation(unconfirmed, cp, activated, refind, fr, hit, s1, s2, cpSrc, lost_stracks);
      ghost var hit3 := hit;
      ghost var born;
      activated, hit, born := Births(cp, u_detection, activated, refind, fr, hit, cpSrc, lost_stracks);
      steps := Steps(s1, s2, s3, lost_stracks, removed_stracks, Lists(tracked, lost), born);
      NobodyIgnored(objects, hit1, hit2, hit3, hit, highSrc, cp, cpSrc, u_detection);
      NewbornsScore(fr, hit3, hit);
      all_tracked, all_lost := EndFrame(activated, refind, lost_stracks, removed_stracks, fr, hit, steps);
    }

    /** `update`: one frame. `hit` names the object each tracked track owns; `steps` records the three
        associations; `all_tracked` and `all_lost` are the next lists before duplicates are dropped. */
    method Update(objects: seq<Object>)
      returns (output: seq<Track<K>>, ghost hit: Hits, ghost all_tracked: seq<Track<K>>, ghost all_lost: seq<Track<K>>,
               ghost steps: Steps<K>)
      requires Valid()
      modifies this`frame_id, this`tracked, this`lost, this`removed, this`count
      ensures Valid() && frame_id == old(frame_id) + 1 && old(count) <= count
      ensures Performs(motion, Frame(frame_id, objects, old(tracked), old(lost), old(count)), steps, hit, count)
      ensures Concluded(steps, frame_id, max_time_lost, old(removed), all_tracked, all_lost, removed)
      ensures Fates(motion, Frame(frame_id, objects, old(tracked), old(lost), old(count)), hit, max_time_lost,
                    old(Ids(removed)), all_tracked, all_lost)
      ensures Apart(tracked, lost) && Deduplicated(all_tracked, all_lost, tracked, lost)
      ensures LongestStay(all_tracked, all_lost, tracked, lost)
      ensures FrameStep(motion, max_time_lost, old(Snap()), Moment(objects, hit, all_tracked, all_lost), Snap())
      ensures Retired(Frame(frame_id, objects, old(tracked), old(lost), old(count)), hit, max_time_lost, old(removed),
                      removed)
      ensures old(Ids(tracked) + Ids(lost)) <= Ids(all_tracked) + Ids(all_lost) + Ids(removed)
      ensures output == Activated(tracked) && |output| <= |tracked| <= |objects|
      ensures OneObjectEach(objects, hit, tracked) && ConfidentServed(objects, hit)
      ensures forall i :: 0 <= i < |tracked| && tracked[i].track_id > old(count) ==> tracked[i].score >= 0.6
      ensures forall a :: a in Ids(tracked) ==> a in old(Ids(tracked) + Ids(lost)) || old(count) < a <= count
      ensures Ids(lost) <= old(Ids(tracked) + Ids(lost))
      ensures Presentable(output, tracked, frame_id)
      ensures forall i :: 0 <= i < |lost| ==>
                1 <= frame_id - lost[i].frame_id <= (if max_time_lost < 1 then 1 else max_time_lost) + 1
    {
      hide Performs, Concluded, Fates, FrameStep, Deduplicated, Apart, Conserved, End, BornConfident, OneObjectEach;
      hide Steady, Start, ConfidentServed, HitIds, AllRecent, Presentable, Retired, LongestStay;
      ghost var before := Snap();
      frame_id := frame_id + 1;
      ghost var fr := Frame(frame_id, objects, tracked, lost, count);
      BeginFrame(fr, Ids(removed), max_time_lost);
      ghost var removed0 := removed;
      hit, all_tracked, all_lost, steps := ProcessFrame(objects, fr);
      FrameFates(motion, fr, steps, hit, count, max_time_lost, removed0, all_tracked, all_lost, removed);
      RemovedExactly(motion, fr, steps, hit, count, max_time_lost, removed0, all_tracked, all_lost, removed);
      ConservedIds(fr, Ids(all_tracked) + Ids(all_lost) + Ids(removed));
      FrameIds(fr, hit, tracked, lost, count);
      LongestKept(all_tracked, all_lost, tracked, lost);
      FrameInvariant(fr, hit, tracked, lost, count, Ids(removed), max_time_lost);
      NoMoreThanObjects(fr, hit, tracked, lost);
      NewTracksScore(fr, hit, tracked, lost);
      SteadyOutput(frame_id, count, tracked, lost, Ids(removed), max_time_lost);
      FrameDone(motion, max_time_lost, before, Moment(objects, hit, all_tracked, all_lost), Snap());
      output := Output();
    }
  }

  /** The tracks with the activation flag, in order. */
  function Activated<K>(ts: seq<Track<K>>): (r: seq<Track<K>>) {
    if ts == [] then []
    else Activated(ts[..|ts| - 1]) + if ts[|ts| - 1].is_activated then [ts[|ts| - 1]] else []
  }

  lemma {:induction false} ActivatedExactly<K>(ts: seq<Track<K>>)
    ensures |Activated(ts)| <= |ts|
    ensures forall t :: t in Activated(ts) ==> t in ts && t.is_activated
    ensures forall t :: t in ts && t.is_activated ==> t in Activated(ts)
    ensures (forall t :: t in ts ==> t.is_activated) ==> Activated(ts) == ts
  {
    if ts != [] {
      ActivatedExactly(ts[..|ts| - 1]);
      assert ts == ts[..|ts| - 1] + [ts[|ts| - 1]];
    }
  }

  /** In the first frame every track is given out; later all but those born in the frame. No track is missed for
      longer than the limit and one frame. */
  lemma SteadyOutput<K>(now: int, count: int, tracked: seq<Track<K>>, lost: seq<Track<K>>, removed: set<int>,
                        max_time_lost: int)
    requires Steady(now, count, tracked, lost, removed, max_time_lost)
    ensures |Activated(tracked)| <= |tracked| && Presentable(Activated(tracked), tracked, now)
    ensures forall i :: 0 <= i < |lost| ==>
              1 <= now - lost[i].frame_id <= (if max_time_lost < 1 then 1 else max_time_lost) + 1
  {
    hide Activated, DistinctIds, AscendingIds, Recent;
    ActivatedExactly(tracked);
    forall t | t in tracked
      ensures t.is_activated <==> now == 1 || t.start_frame < now
    {
      assert Current(t, now, count);
    }
    forall i | 0 <= i < |lost|
      ensures 1 <= now - lost[i].frame_id <= (if max_time_lost < 1 then 1 else max_time_lost) + 1
    {
      RecentBound(lost[i], now, count, removed, max_time_lost);
    }
  }

  lemma RecentBound<K>(t: Track<K>, now: int, count: int, removed: set<int>, max_time_lost: int)
    requires Missing(t, now, count, removed, max_time_lost)
    ensures 1 <= now - t.frame_id <= (if max_time_lost < 1 then 1 else max_time_lost) + 1
  {
  }

  ghost predicate Presentable<K>(output: seq<Track<K>>, tracked: seq<Track<K>>, now: int) {
    && (now == 1 ==> output == tracked)
    && (forall t :: t in output ==> t in tracked)
    && (forall t :: t in tracked ==> (t in output <==> now == 1 || t.start_frame < now))
  }
}
