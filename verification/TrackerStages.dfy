/** The three associations of a frame and all steps between them, with everything they pass on. */
module TrackerStages {
  import opened Permutations
  import opened Iou
  import opened Tracks
  import opened Association
  import opened TrackerFrame
  import opened TrackerSteps
  import opened TrackerEffects
  import LA = LinearAssignment

  /** One association: the tracks and the detections that take part, the chosen partners `m`, the rows
      and the columns left over, the tracker's lists before and after the matched tracks are revised, the
      objects given away so far, and the copies collected so far. */
  datatype Stage<K> = Stage(refs: seq<Ref>, dets: seq<Track<K>>, src: seq<int>, m: seq<int>, ua: seq<int>, ub: seq<int>,
                            before: Lists<K>, revised: Lists<K>, after: Hits,
                            activated: seq<Track<K>>, refind: seq<Track<K>>)

  ghost function BoxesOf<K>(dets: seq<Track<K>>): (bs: seq<Box>)
    ensures |bs| == |dets| && forall k :: 0 <= k < |dets| ==> bs[k] == dets[k].tlbr
  {
    seq(|dets|, k requires 0 <= k < |dets| => dets[k].tlbr)
  }

  /** The boxes of the tracks at some places. */
  ghost function BoxesIn<K>(ls: Lists<K>, refs: seq<Ref>): (bs: seq<Box>)
    requires AllHeld(ls, refs)
    ensures |bs| == |refs| && forall k :: 0 <= k < |refs| ==> bs[k] == ls.Entry(refs[k]).tlbr
  {
    seq(|refs|, k requires 0 <= k < |refs| => ls.Entry(refs[k]).tlbr)
  }

  /** The stage gave away exactly the objects of a best matching, under the threshold, of its tracks at
      their present boxes with its detections. */
  ghost predicate Chosen<K>(fr: Frame<K>, st: Stage<K>, thresh: real, hit0: Hits) {
    && AllHeld(st.before, st.refs) && Detected(fr.objects, st.dets, st.src)
    && Optimal(BoxesIn(st.before, st.refs), BoxesOf(st.dets), thresh, st.m, LA.Pairs(st.m))
    && Associated(LA.Pairs(st.m), st.ua, st.ub, |st.refs|, |st.src|)
    && Progress(fr, hit0, st.after, st.refs, st.src, LA.Pairs(st.m))
  }

  /** The stage revised exactly its matched tracks, and collected copies of them behind those at hand. */
  ghost predicate Performed<K>(motion: Motion<K>, fr: Frame<K>, st: Stage<K>, only_update: bool,
                               activated0: seq<Track<K>>, refind0: seq<Track<K>>) {
    Booked(motion, fr.now, only_update, st.refs, st.dets, LA.Pairs(st.m), st.before, st.revised,
           activated0, refind0, st.activated, st.refind)
  }

  /** Where the run of the stages has got to. */
  ghost predicate Reached<K>(st: Stage<K>, hit: Hits, activated: seq<Track<K>>, refind: seq<Track<K>>) {
    st.after == hit && st.activated == activated && st.refind == refind
  }

  /** A stage that has been run. */
  ghost predicate Ran<K>(motion: Motion<K>, fr: Frame<K>, st: Stage<K>, thresh: real, hit0: Hits, only_update: bool,
                         activated0: seq<Track<K>>, refind0: seq<Track<K>>) {
    Chosen(fr, st, thresh, hit0) && Performed(motion, fr, st, only_update, activated0, refind0)
  }

  lemma StageChosen<K>(fr: Frame<K>, st: Stage<K>, xs: seq<Box>, ys: seq<Box>, matches: seq<(int, int)>, thresh: real,
                       hit0: Hits)
    requires AllHeld(st.before, st.refs) && Detected(fr.objects, st.dets, st.src)
    requires |xs| == |st.refs| && |ys| == |st.dets|
    requires forall k :: 0 <= k < |xs| ==> xs[k] == st.before.Entry(st.refs[k]).tlbr
    requires forall k :: 0 <= k < |ys| ==> ys[k] == st.dets[k].tlbr
    requires Optimal(xs, ys, thresh, st.m, matches) && Associated(matches, st.ua, st.ub, |st.refs|, |st.dets|)
    requires Progress(fr, hit0, st.after, st.refs, st.src, matches)
    ensures Chosen(fr, st, thresh, hit0) && matches == LA.Pairs(st.m)
  {
    assert BoxesIn(st.before, st.refs) == xs;
    assert BoxesOf(st.dets) == ys;
  }

  const SECOND_THRESH: real := 0.5
  const THIRD_THRESH: real := 0.7

  /** The track takes part in the first association: it is lost, or tracked and confirmed. */
  ghost predicate Pooled<K>(fr: Frame<K>, r: Ref)
    requires RefOk(fr, r)
  {
    match r case InTracked(i) => fr.tracked[i].is_activated case InLost(i) => true
  }

  ghost predicate AllPooled<K>(fr: Frame<K>, refs: seq<Ref>) {
    forall r :: RefOk(fr, r) ==> (r in refs <==> Pooled(fr, r))
  }

  /** The pool of the first association, in order. */
  ghost function FirstPool<K>(fr: Frame<K>): seq<Ref> {
    Places(fr.tracked, true) + LostPlaces(|fr.lost|)
  }

  ghost predicate Shaped<K>(fr: Frame<K>, ls: Lists<K>) {
    |ls.tracked| == |fr.tracked| && |ls.lost| == |fr.lost|
  }

  /** The lists after `multi_predict`. */
  ghost predicate AllPredicted<K>(motion: Motion<K>, fr: Frame<K>, ls: Lists<K>) {
    Shaped(fr, ls) && forall r :: RefOk(fr, r) ==> ls.Entry(r) == Predicted(motion, fr, r, Pooled(fr, r))
  }

  /** First stage: exactly the activated and the lost tracks, all moved on, with exactly the confident objects. */
  ghost predicate FirstStage<K>(motion: Motion<K>, fr: Frame<K>, st: Stage<K>) {
    && AllPredicted(motion, fr, st.before)
    && st.refs == FirstPool(fr) && AllPooled(fr, st.refs)
    && SplitOff(fr.objects, st.src, true)
    && Chosen(fr, st, MATCH_THRESH, map[])
    && Performed(motion, fr, st, false, [], [])
  }

  /** Second stage: exactly the activated tracks not matched yet, with exactly the remaining objects; whoever
      is left over is lost, and `lost_stracks` are copies of those. */
  ghost predicate SecondStage<K>(motion: Motion<K>, fr: Frame<K>, s1: Stage<K>, st: Stage<K>,
                                 lost_stracks: seq<Track<K>>, marked: Lists<K>) {
    && st.before == s1.revised
    && Within(s1.ua, |s1.refs|) && st.refs == TrackedAt(s1.refs, s1.ua) && StillWanted(fr, s1.after, st.refs)
    && SplitOff(fr.objects, st.src, false)
    && Chosen(fr, st, SECOND_THRESH, s1.after)
    && Performed(motion, fr, st, false, s1.activated, s1.refind)
    && Marked(Lost, st.refs, st.ua, st.revised.tracked, marked.tracked, lost_stracks) && marked.lost == st.revised.lost
  }

  ghost predicate StillWanted<K>(fr: Frame<K>, hit: Hits, refs: seq<Ref>) {
    forall r :: RefOk(fr, r) ==> (r in refs <==> r.InTracked? && Pooled(fr, r) && IdOf(fr, r) !in hit)
  }

  /** Third stage: exactly the unconfirmed tracks, not moved on, with exactly the confident objects left over by
      the first; whoever is left over is removed, and `removed_stracks` are copies of those. */
  ghost predicate ThirdStage<K>(motion: Motion<K>, fr: Frame<K>, s1: Stage<K>, s2: Stage<K>, st: Stage<K>,
                                removed_stracks: seq<Track<K>>, settled: Lists<K>) {
    && st.refs == Places(fr.tracked, false) && Unconfirmed(fr, st.refs)
    && LeftBy(s1.src, s1.ub, st.src)
    && Chosen(fr, st, THIRD_THRESH, s2.after)
    && Performed(motion, fr, st, true, s2.activated, s2.refind)
    && Marked(Removed, st.refs, st.ua, st.revised.tracked, settled.tracked, removed_stracks) &&
       settled.lost == st.revised.lost
  }

  ghost predicate Unconfirmed<K>(fr: Frame<K>, refs: seq<Ref>) {
    forall r :: RefOk(fr, r) ==> (r in refs <==> !Pooled(fr, r))
  }

  ghost predicate LeftBy(src: seq<int>, ub: seq<int>, left: seq<int>) {
    |left| == |ub| && Within(ub, |src|) && forall k :: 0 <= k < |ub| ==> left[k] == src[ub[k]]
  }

  /** The objects given away once the newborn tracks have theirs. */
  ghost function BornHits<K>(motion: Motion<K>, hit0: Hits, dets: seq<Track<K>>, src: seq<int>, at: seq<int>,
                             count: int, now: int): Hits
    requires |src| == |dets| && Within(at, |dets|)
  {
    if at == [] then hit0
    else
      var front, last := at[..|at| - 1], at[|at| - 1];
      var hit := BornHits(motion, hit0, dets, src, front, count, now);
      if dets[last].score < HIGH_THRESH then hit
      else hit[count + |Newborns(motion, dets, front, count, now)| + 1 := src[last]]
  }

  /** What the steps of one frame did up to the end of the births. */
  datatype Steps<K> = Steps(s1: Stage<K>, s2: Stage<K>, s3: Stage<K>, lost_stracks: seq<Track<K>>,
                            removed_stracks: seq<Track<K>>, settled: Lists<K>, born: seq<Track<K>>)

  /** The three associations in their order, then the births. */
  ghost predicate Performs<K>(motion: Motion<K>, fr: Frame<K>, steps: Steps<K>, hit: Hits, count: int) {
    && FirstStage(motion, fr, steps.s1)
    && SecondStage(motion, fr, steps.s1, steps.s2, steps.lost_stracks, steps.s3.before)
    && ThirdStage(motion, fr, steps.s1, steps.s2, steps.s3, steps.removed_stracks, steps.settled)
    && Delivered(motion, fr, steps.s3, steps.born, hit, count)
  }

  /** Exactly the confident objects nobody was matched with became tracks, numbered in order. */
  ghost predicate Delivered<K>(motion: Motion<K>, fr: Frame<K>, s3: Stage<K>, born: seq<Track<K>>, hit: Hits,
                               count: int)
  {
    && |s3.src| == |s3.dets| && Within(s3.ub, |s3.dets|)
    && born == Newborns(motion, s3.dets, s3.ub, fr.count, fr.now) && count == fr.count + |born|
    && hit == BornHits(motion, s3.after, s3.dets, s3.src, s3.ub, fr.count, fr.now)
  }

  /** What the end of the frame is given. */
  ghost predicate Ending<K>(steps: Steps<K>, settled: Lists<K>, activated: seq<Track<K>>, refind: seq<Track<K>>,
                            lost_stracks: seq<Track<K>>, removed_stracks: seq<Track<K>>) {
    && steps.settled == settled && activated == steps.s3.activated + steps.born && refind == steps.s3.refind
    && lost_stracks == steps.lost_stracks && removed_stracks == steps.removed_stracks
  }

  /** The lists after the frame, before duplicates are dropped. */
  ghost predicate Concluded<K>(steps: Steps<K>, now: int, limit: int, removed0: seq<Track<K>>,
                               all_tracked: seq<Track<K>>, all_lost: seq<Track<K>>, removed: seq<Track<K>>) {
    && all_tracked == Joint(Joint(StillThere(steps.settled.tracked), steps.s3.activated + steps.born), steps.s3.refind)
    && Ids(all_lost) == Ids(steps.settled.lost) - Ids(all_tracked) + Ids(steps.lost_stracks) - Ids(removed0)
    && AscendingIds(all_lost) && (forall i :: 0 <= i < |all_lost| ==> LeftLate(steps, now, limit, all_lost[i]))
    && removed == removed0 + (steps.removed_stracks + Expired(steps.settled.lost, now, limit))
  }

  ghost predicate LeftLate<K>(steps: Steps<K>, now: int, limit: int, t: Track<K>) {
    || t in steps.lost_stracks
    || exists j :: 0 <= j < |steps.settled.lost| && t == Aged(steps.settled.lost[j], now, limit)
  }

  // ---- Births ----

  /** The listed detections have been dealt with: the confident ones became tracks. */
  ghost predicate Delivering<K>(motion: Motion<K>, fr: Frame<K>, hit0: Hits, hit: Hits, dets: seq<Track<K>>,
                                src: seq<int>, at: seq<int>, born: seq<Track<K>>, count: int) {
    && |src| == |dets| && Within(at, |dets|)
    && born == Newborns(motion, dets, at, fr.count, fr.now) && count == fr.count + |born|
    && hit == BornHits(motion, hit0, dets, src, at, fr.count, fr.now)
    && Extends(hit0, hit)
    && (forall l :: 0 <= l < |at| && dets[at[l]].score >= HIGH_THRESH ==> !Unused(hit, src[at[l]]))
    && (forall a :: a in hit && a !in hit0 ==> a > fr.count && Confident(fr.objects, hit[a]))
  }

  ghost predicate Confident(objects: seq<Object>, o: int) {
    0 <= o < |objects| && objects[o].prob >= HIGH_THRESH
  }

  lemma NobodyDelivered<K>(motion: Motion<K>, fr: Frame<K>, hit: Hits, dets: seq<Track<K>>, src: seq<int>)
    requires |src| == |dets|
    ensures Delivering(motion, fr, hit, hit, dets, src, [], [], fr.count)
  {
  }

  lemma DeliveredNext<K>(motion: Motion<K>, fr: Frame<K>, hit0: Hits, hit: Hits, dets: seq<Track<K>>, src: seq<int>,
                         at: seq<int>, born: seq<Track<K>>, count: int, j: int)
    requires Delivering(motion, fr, hit0, hit, dets, src, at, born, count) && Detected(fr.objects, dets, src)
    requires 0 <= j < |dets| && count + 1 !in hit && fr.count <= count
    ensures dets[j].score < HIGH_THRESH ==> Delivering(motion, fr, hit0, hit, dets, src, at + [j], born, count)
    ensures dets[j].score >= HIGH_THRESH ==>
              Delivering(motion, fr, hit0, hit[count + 1 := src[j]], dets, src, at + [j],
                         born + [dets[j].Activate(motion, count + 1, fr.now)], count + 1)
  {
    var next := at + [j];
    assert next[..|next| - 1] == at && next[|next| - 1] == j;
    if dets[j].score >= HIGH_THRESH {
      var hit' := hit[count + 1 := src[j]];
      forall l | 0 <= l < |next| && dets[next[l]].score >= HIGH_THRESH
        ensures !Unused(hit', src[next[l]])
      {
        if l < |at| {
          assert next[l] == at[l];
          ExtendsUsed(hit, hit', src);
        } else {
          assert hit'[count + 1] == src[j];
        }
      }
    }
  }

  // ---- How the methods arrive at the stages ----

  lemma PoolsExactly<K>(fr: Frame<K>, pool: seq<Ref>, unconfirmed: seq<Ref>)
    requires pool == FirstPool(fr) && unconfirmed == Places(fr.tracked, false)
    ensures Pools(fr, pool, unconfirmed) && AllPooled(fr, pool) && Unconfirmed(fr, unconfirmed)
  {
    var confirmed, lost := Places(fr.tracked, true), LostPlaces(|fr.lost|);
    PlacesExactly(fr.tracked, true);
    PlacesExactly(fr.tracked, false);
    assert forall r :: r in pool <==> r in confirmed || r in lost;
    assert forall r :: r in lost <==> r.InLost? && r.i < |fr.lost| by {
      assert forall i :: 0 <= i < |fr.lost| ==> lost[i] == InLost(i);
    }
  }

  lemma WantedExactly<K>(fr: Frame<K>, hit: Hits, tracked: seq<Track<K>>, pool: seq<Ref>, ua: seq<int>, refs: seq<Ref>)
    requires RefsOk(fr, pool) && |tracked| == |fr.tracked| && Waiting(fr, hit, tracked, refs) && Within(ua, |pool|)
    requires AllPooled(fr, pool)
    requires forall k :: 0 <= k < |pool| ==> (IdOf(fr, pool[k]) !in hit <==> k in ua)
    requires forall k :: 0 <= k < |refs| ==> refs[k] in pool
    requires forall k :: 0 <= k < |ua| && pool[ua[k]].InTracked? ==> pool[ua[k]] in refs
    ensures StillWanted(fr, hit, refs)
  {
    forall r | RefOk(fr, r) && r.InTracked? && Pooled(fr, r) && IdOf(fr, r) !in hit
      ensures r in refs
    {
      var k :| 0 <= k < |pool| && pool[k] == r;
      var l :| 0 <= l < |ua| && ua[l] == k;
      assert pool[ua[l]] in refs;
    }
  }
}
