/** What the steps of a frame do to the tracker's lists, exactly. */
module TrackerEffects {
  import opened Permutations
  import opened Tracks
  import opened Association
  import opened TrackerFrame
  import opened TrackerSteps

  datatype Lists<K> = Lists(tracked: seq<Track<K>>, lost: seq<Track<K>>) {
    predicate Has(r: Ref) {
      match r case InTracked(i) => i < |tracked| case InLost(i) => i < |lost|
    }

    function Entry(r: Ref): Track<K>
      requires Has(r)
    {
      At(tracked, lost, r)
    }
  }

  ghost predicate AllHeld<K>(ls: Lists<K>, refs: seq<Ref>) {
    Distinct(refs) && forall k :: 0 <= k < |refs| ==> ls.Has(refs[k])
  }

  ghost predicate SameShape<K>(a: Lists<K>, b: Lists<K>) {
    |a.tracked| == |b.tracked| && |a.lost| == |b.lost|
  }

  /** A matched track after its detection: updated if it was tracked or is not confirmed yet, re-activated otherwise. */
  function Revised<K>(motion: Motion<K>, t: Track<K>, det: Track<K>, now: int, only_update: bool): Track<K> {
    if !only_update && t.state != Tracked then t.ReActivate(motion, det, now) else t.Update(motion, det, now)
  }

  /** Exactly the tracks of the pairs were revised, each by its own detection. */
  ghost predicate Effect<K>(motion: Motion<K>, now: int, only_update: bool, refs: seq<Ref>, dets: seq<Track<K>>,
                            done: seq<(int, int)>, before: Lists<K>, after: Lists<K>)
    requires AllHeld(before, refs) && OneToOne(done, |refs|, |dets|)
  {
    && SameShape(before, after)
    && (forall l :: 0 <= l < |done| ==>
          after.Entry(refs[done[l].0]) ==
          Revised(motion, before.Entry(refs[done[l].0]), dets[done[l].1], now, only_update))
    && (forall r :: before.Has(r) && (forall l :: 0 <= l < |done| ==> refs[done[l].0] != r) ==>
        after.Entry(r) == before.Entry(r))
  }

  /** Copies of the revised tracks of one list, in the order of the pairs. */
  ghost function Copies<K>(ls: Lists<K>, refs: seq<Ref>, done: seq<(int, int)>, refound: bool): seq<Track<K>>
    requires forall k :: 0 <= k < |refs| ==> ls.Has(refs[k])
    requires forall l :: 0 <= l < |done| ==> 0 <= done[l].0 < |refs|
  {
    if done == [] then []
    else
      var r := refs[done[|done| - 1].0];
      var front := Copies(ls, refs, done[..|done| - 1], refound);
      if r.InLost? == refound then front + [ls.Entry(r)] else front
  }

  lemma {:induction false} SameCopies<K>(a: Lists<K>, b: Lists<K>, refs: seq<Ref>, done: seq<(int, int)>, refound: bool)
    requires forall k :: 0 <= k < |refs| ==> a.Has(refs[k]) && b.Has(refs[k])
    requires forall l :: 0 <= l < |done| ==>
               0 <= done[l].0 < |refs| && a.Entry(refs[done[l].0]) == b.Entry(refs[done[l].0])
    ensures Copies(a, refs, done, refound) == Copies(b, refs, done, refound)
  {
    if done != [] {
      SameCopies(a, b, refs, done[..|done| - 1], refound);
    }
  }

  /** The effect of an association together with the two lists that collect its copies. */
  ghost predicate Booked<K>(motion: Motion<K>, now: int, only_update: bool, refs: seq<Ref>, dets: seq<Track<K>>,
                            done: seq<(int, int)>, before: Lists<K>, after: Lists<K>,
                            activated0: seq<Track<K>>, refind0: seq<Track<K>>, activated: seq<Track<K>>,
                            refind: seq<Track<K>>)
  {
    && AllHeld(before, refs) && OneToOne(done, |refs|, |dets|)
    && Effect(motion, now, only_update, refs, dets, done, before, after)
    && activated == activated0 + Copies(after, refs, done, false)
    && refind == refind0 + Copies(after, refs, done, true)
  }

  /** One place was revised and nothing else. */
  ghost predicate OnePlace<K>(motion: Motion<K>, now: int, only_update: bool, r: Ref, det: Track<K>, before: Lists<K>,
                              after: Lists<K>)
  {
    && SameShape(before, after) && before.Has(r)
    && after.Entry(r) == Revised(motion, before.Entry(r), det, now, only_update)
    && (forall s :: before.Has(s) && s != r ==> after.Entry(s) == before.Entry(s))
  }

  lemma EffectNext<K>(motion: Motion<K>, now: int, only_update: bool, refs: seq<Ref>, dets: seq<Track<K>>,
                      matches: seq<(int, int)>, k: nat, before: Lists<K>, mid: Lists<K>, after: Lists<K>)
    requires k < |matches| && OneToOne(matches, |refs|, |dets|) && OneToOne(matches[..k], |refs|, |dets|) &&
             OneToOne(matches[..k + 1], |refs|, |dets|)
    requires AllHeld(before, refs) && Effect(motion, now, only_update, refs, dets, matches[..k], before, mid)
    requires OnePlace(motion, now, only_update, refs[matches[k].0], dets[matches[k].1], mid, after)
    ensures Effect(motion, now, only_update, refs, dets, matches[..k + 1], before, after)
  {
    hide Revised, At;
    var done, next := matches[..k], matches[..k + 1];
    assert forall l :: 0 <= l < k ==> next[l] == done[l] == matches[l];
    var r := refs[matches[k].0];
    forall l | 0 <= l < |next|
      ensures after.Entry(refs[next[l].0]) ==
              Revised(motion, before.Entry(refs[next[l].0]), dets[next[l].1], now, only_update)
    {
      if l < k {
        assert refs[done[l].0] != r;
      } else {
        assert forall m :: 0 <= m < k ==> refs[done[m].0] != r;
      }
    }
    forall s | before.Has(s) && (forall l :: 0 <= l < |next| ==> refs[next[l].0] != s)
      ensures after.Entry(s) == before.Entry(s)
    {
      assert next[k] == matches[k];
    }
  }

  lemma PairsPrefix(matches: seq<(int, int)>, k: nat, rows: nat, cols: nat)
    requires k <= |matches| && OneToOne(matches, rows, cols)
    ensures OneToOne(matches[..k], rows, cols)
  {
  }

  lemma CopiesNext<K>(motion: Motion<K>, now: int, only_update: bool, refs: seq<Ref>, det: Track<K>,
                      matches: seq<(int, int)>, k: nat, cols: nat, mid: Lists<K>, after: Lists<K>, refound: bool)
    requires k < |matches| && OneToOne(matches, |refs|, cols) && AllHeld(mid, refs)
    requires OnePlace(motion, now, only_update, refs[matches[k].0], det, mid, after)
    ensures var r := refs[matches[k].0];
            Copies(after, refs, matches[..k + 1], refound) ==
            if r.InLost? == refound then Copies(mid, refs, matches[..k], refound) + [after.Entry(r)]
            else Copies(mid, refs, matches[..k], refound)
  {
    hide Revised, At;
    var done := matches[..k];
    assert forall l :: 0 <= l < k ==> done[l] == matches[l] && refs[done[l].0] != refs[matches[k].0];
    SameCopies(mid, after, refs, done, refound);
    assert matches[..k + 1][..k] == done;
  }

  lemma BookedNext<K>(motion: Motion<K>, now: int, only_update: bool, refs: seq<Ref>, dets: seq<Track<K>>,
                      matches: seq<(int, int)>, k: nat, before: Lists<K>, mid: Lists<K>, after: Lists<K>,
                      activated0: seq<Track<K>>, refind0: seq<Track<K>>, activated: seq<Track<K>>,
                      refind: seq<Track<K>>)
    requires k < |matches| && OneToOne(matches, |refs|, |dets|)
    requires Booked(motion, now, only_update, refs, dets, matches[..k], before, mid, activated0, refind0,
                    activated, refind)
    requires OnePlace(motion, now, only_update, refs[matches[k].0], dets[matches[k].1], mid, after)
    ensures var copy := after.Entry(refs[matches[k].0]);
            if refs[matches[k].0].InLost? then
              Booked(motion, now, only_update, refs, dets, matches[..k + 1], before, after, activated0, refind0,
                     activated, refind + [copy])
            else
              Booked(motion, now, only_update, refs, dets, matches[..k + 1], before, after, activated0, refind0,
                     activated + [copy], refind)
  {
    hide Revised, Effect, At, Copies;
    PairsPrefix(matches, k, |refs|, |dets|);
    PairsPrefix(matches, k + 1, |refs|, |dets|);
    EffectNext(motion, now, only_update, refs, dets, matches, k, before, mid, after);
    EffectShape(motion, now, only_update, refs, dets, matches[..k], before, mid);
    CopiesNext(motion, now, only_update, refs, dets[matches[k].1], matches, k, |dets|, mid, after, false);
    CopiesNext(motion, now, only_update, refs, dets[matches[k].1], matches, k, |dets|, mid, after, true);
  }

  lemma EffectShape<K>(motion: Motion<K>, now: int, only_update: bool, refs: seq<Ref>, dets: seq<Track<K>>,
                       done: seq<(int, int)>, before: Lists<K>, after: Lists<K>)
    requires AllHeld(before, refs) && OneToOne(done, |refs|, |dets|)
    requires Effect(motion, now, only_update, refs, dets, done, before, after)
    ensures SameShape(before, after)
  {
  }

  lemma NothingBooked<K>(motion: Motion<K>, now: int, only_update: bool, refs: seq<Ref>, dets: seq<Track<K>>,
                         ls: Lists<K>, activated: seq<Track<K>>, refind: seq<Track<K>>)
    requires AllHeld(ls, refs)
    ensures Booked(motion, now, only_update, refs, dets, [], ls, ls, activated, refind, activated, refind)
  {
  }

  // ---- Marks ----

  ghost predicate Unlisted(refs: seq<Ref>, at: seq<int>, r: Ref)
    requires Within(at, |refs|)
  {
    forall k :: 0 <= k < |at| ==> refs[at[k]] != r
  }

  /** Exactly the listed entries got the mark, and copies of them were made in order. */
  ghost predicate Marked<K>(mark: TrackState, refs: seq<Ref>, at: seq<int>, before: seq<Track<K>>, after: seq<Track<K>>,
                            copies: seq<Track<K>>)
  {
    && |after| == |before| && |copies| == |at| && Within(at, |refs|)
    && (forall k :: 0 <= k < |at| ==> refs[at[k]].InTracked? && refs[at[k]].i < |before|)
    && (forall k :: 0 <= k < |at| ==> copies[k] == after[refs[at[k]].i] == before[refs[at[k]].i].(state := mark))
    && (forall i :: 0 <= i < |before| && Unlisted(refs, at, InTracked(i)) ==> after[i] == before[i])
  }

  /** Marking an unmatched track as lost or removed keeps what holds of the lists. */
  lemma MarkKeeps<K>(fr: Frame<K>, hit: Hits, tracked: seq<Track<K>>, lost: seq<Track<K>>, r: Ref, mark: TrackState)
    requires Start(fr) && Midway(fr, hit, tracked, lost) && RefOk(fr, r) && r.InTracked? && IdOf(fr, r) !in hit
    ensures r.i < |tracked| == |fr.tracked| && tracked[r.i].track_id == IdOf(fr, r)
    ensures Midway(fr, hit, tracked[r.i := tracked[r.i].(state := mark)], lost)
    ensures Known(fr, tracked[r.i].(state := mark)) && tracked[r.i].frame_id == fr.now - 1
  {
  }

  lemma NothingHit<K>(fr: Frame<K>)
    requires Start(fr)
    ensures Midway(fr, map[], fr.tracked, fr.lost)
  {
  }

  lemma SameTracks<K>(fr: Frame<K>, hit: Hits, tracked: seq<Track<K>>, lost: seq<Track<K>>)
    requires Midway(fr, hit, tracked, lost)
    ensures forall i :: 0 <= i < |tracked| ==> tracked[i].track_id == fr.tracked[i].track_id
  {
  }

  /** Prediction moves a track, but it stays the same track of the same state. */
  lemma PredictKeeps<K>(motion: Motion<K>, fr: Frame<K>, tracked: seq<Track<K>>, lost: seq<Track<K>>, r: Ref)
    requires Midway(fr, map[], tracked, lost) && RefOk(fr, r)
    ensures r.InTracked? ==> Midway(fr, map[], tracked[r.i := tracked[r.i].Predict(motion)], lost)
    ensures r.InLost? ==> Midway(fr, map[], tracked, lost[r.i := lost[r.i].Predict(motion)])
  {
    assert Carried(fr, map[], At(tracked, lost, r), At(fr.tracked, fr.lost, r));
  }

  lemma MarkNothing<K>(mark: TrackState, refs: seq<Ref>, ts: seq<Track<K>>)
    ensures Marked(mark, refs, [], ts, ts, [])
  {
  }

  lemma MarkNext<K>(mark: TrackState, refs: seq<Ref>, at: seq<int>, k: nat, before: seq<Track<K>>, mid: seq<Track<K>>,
                    copies: seq<Track<K>>)
    requires Distinct(refs) && Distinct(at) && Within(at, |refs|) && k < |at|
    requires refs[at[k]].InTracked? && refs[at[k]].i < |before|
    requires Marked(mark, refs, at[..k], before, mid, copies)
    ensures mid[refs[at[k]].i] == before[refs[at[k]].i]
    ensures var copy := before[refs[at[k]].i].(state := mark);
            Marked(mark, refs, at[..k + 1], before, mid[refs[at[k]].i := copy], copies + [copy])
  {
  }

  // ---- Births and expiry ----

  /** The tracks started for the listed detections, with identifiers from `count` on. */
  function Newborns<K>(motion: Motion<K>, dets: seq<Track<K>>, at: seq<int>, count: int, now: int): seq<Track<K>>
    requires Within(at, |dets|)
  {
    if at == [] then []
    else
      var front := Newborns(motion, dets, at[..|at| - 1], count, now);
      var det := dets[at[|at| - 1]];
      if det.score < HIGH_THRESH then front else front + [det.Activate(motion, count + |front| + 1, now)]
  }

  /** A lost track after the expiry of its frame. */
  function Aged<K>(t: Track<K>, now: int, limit: int): Track<K> {
    if now - t.frame_id > limit then t.(state := Removed) else t
  }

  /** The copies made of expired tracks. */
  function Expired<K>(lost: seq<Track<K>>, now: int, limit: int): seq<Track<K>> {
    if lost == [] then []
    else
      var front := Expired(lost[..|lost| - 1], now, limit);
      var t := lost[|lost| - 1];
      if now - t.frame_id > limit then front + [Aged(t, now, limit)] else front
  }

  /** The tracks in state Tracked. */
  function StillThere<K>(ts: seq<Track<K>>): seq<Track<K>> {
    if ts == [] then []
    else
      var front := StillThere(ts[..|ts| - 1]);
      if ts[|ts| - 1].state == Tracked then front + [ts[|ts| - 1]] else front
  }

  lemma {:induction false} StillThereExactly<K>(ts: seq<Track<K>>)
    ensures forall k :: 0 <= k < |StillThere(ts)| ==> StillThere(ts)[k] in ts && StillThere(ts)[k].state == Tracked
    ensures forall i :: 0 <= i < |ts| && ts[i].state == Tracked ==> ts[i] in StillThere(ts)
  {
    if ts != [] {
      StillThereExactly(ts[..|ts| - 1]);
      assert ts == ts[..|ts| - 1] + [ts[|ts| - 1]];
    }
  }

  lemma {:induction false} StillThereDistinct<K>(ts: seq<Track<K>>)
    requires DistinctIds(ts)
    ensures DistinctIds(StillThere(ts))
  {
    if ts != [] {
      var front := ts[..|ts| - 1];
      StillThereDistinct(front);
      StillThereExactly(front);
      forall k | 0 <= k < |StillThere(front)|
        ensures StillThere(front)[k].track_id != ts[|ts| - 1].track_id
      {
        assert StillThere(front)[k] in front;
      }
    }
  }
}
