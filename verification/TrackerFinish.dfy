/** The end of a frame: the lists of the next frame are put together. */
module TrackerFinish {
  import opened Permutations
  import opened Tracks
  import opened Duplicates
  import opened TrackerFrame
  import opened TrackerSteps
  import opened TrackerEffects
  import opened TrackerStages

  /** A lost track is kept for at least one frame, whatever the configured limit. */
  function Patience(max_time_lost: int): int { if max_time_lost < 1 then 1 else max_time_lost }

  /** A lost track was last matched at most one frame beyond the limit ago; in that extra frame it is
      already on the list of removed tracks. */
  ghost predicate Recent<K>(t: Track<K>, now: int, max_time_lost: int, removed: set<int>) {
    || now - t.frame_id <= Patience(max_time_lost)
    || (now - t.frame_id == Patience(max_time_lost) + 1 && t.track_id in removed)
  }

  ghost predicate AllRecent<K>(ts: seq<Track<K>>, now: int, max_time_lost: int, removed: set<int>) {
    forall i :: 0 <= i < |ts| ==> Recent(ts[i], now, max_time_lost, removed)
  }

  /** An entry of the lost list after expiry. */
  ghost predicate LeftLost<K>(fr: Frame<K>, hit: Hits, t: Track<K>, t0: Track<K>) {
    && t.track_id == t0.track_id
    && (t.track_id !in hit ==> t.frame_id == t0.frame_id && t.start_frame == t0.start_frame && t.state != Tracked)
  }

  ghost predicate AllLeftLost<K>(fr: Frame<K>, hit: Hits, ts: seq<Track<K>>) {
    |ts| == |fr.lost| && forall i :: 0 <= i < |ts| ==> LeftLost(fr, hit, ts[i], fr.lost[i])
  }

  /** The unmatched lost tracks beyond the limit have been put on the removed list. */
  ghost predicate ExpiredListed<K>(fr: Frame<K>, hit: Hits, ts: seq<Track<K>>, max_time_lost: int,
                                   removed_stracks: seq<Track<K>>)
  {
    forall i :: 0 <= i < |ts| && fr.now - ts[i].frame_id > max_time_lost ==> ts[i].track_id in Ids(removed_stracks)
  }

  ghost predicate AgedAll<K>(before: seq<Track<K>>, after: seq<Track<K>>, now: int, limit: int) {
    |after| == |before| && forall i :: 0 <= i < |after| ==> after[i] == Aged(before[i], now, limit)
  }

  lemma AgedIds<K>(before: seq<Track<K>>, after: seq<Track<K>>, now: int, limit: int)
    requires AgedAll(before, after, now, limit)
    ensures Ids(after) == Ids(before)
  {
    SameIds(after, before);
  }

  lemma {:induction false} ExpiredIds<K>(lost: seq<Track<K>>, now: int, limit: int)
    ensures forall i :: 0 <= i < |lost| && now - lost[i].frame_id > limit ==>
              lost[i].track_id in Ids(Expired(lost, now, limit))
  {
    if lost != [] {
      var front, t := lost[..|lost| - 1], lost[|lost| - 1];
      ExpiredIds(front, now, limit);
      IdsAppend(Expired(front, now, limit), Aged(t, now, limit));
    }
  }

  lemma AgedKeeps<K>(fr: Frame<K>, hit: Hits, tracked: seq<Track<K>>, before: seq<Track<K>>, after: seq<Track<K>>,
                     removed0: seq<Track<K>>, limit: int)
    requires Start(fr) && Midway(fr, hit, tracked, before) && AgedAll(before, after, fr.now, limit)
    ensures AllLeftLost(fr, hit, after)
    ensures ExpiredListed(fr, hit, after, limit, removed0 + Expired(before, fr.now, limit))
    ensures Ids(removed0) <= Ids(removed0 + Expired(before, fr.now, limit))
  {
    ExpiredIds(before, fr.now, limit);
    IdsConcat(removed0, Expired(before, fr.now, limit));
    forall i | 0 <= i < |after|
      ensures LeftLost(fr, hit, after[i], fr.lost[i])
    {
      assert Carried(fr, hit, before[i], fr.lost[i]);
    }
  }

  /** A member of the next lost list. */
  ghost predicate StaysLost<K>(fr: Frame<K>, hit: Hits, t: Track<K>) {
    Known(fr, t) && t.state != Tracked && t.track_id !in hit && Continuing(fr, t.track_id)
  }

  /** The lists as this frame leaves them. */
  ghost predicate End<K>(fr: Frame<K>, hit: Hits, tracked: seq<Track<K>>, lost: seq<Track<K>>) {
    && HitsOk(fr, hit) && DistinctIds(tracked) && AllGood(fr, hit, tracked)
    && AscendingIds(lost) && (forall i :: 0 <= i < |lost| ==> StaysLost(fr, hit, lost[i]))
  }

  ghost predicate Apart<K>(tracked: seq<Track<K>>, lost: seq<Track<K>>) {
    forall k, l :: 0 <= k < |tracked| && 0 <= l < |lost| ==> !Close(tracked[k], lost[l])
  }

  /** What is still tracked was matched in this frame, and everything matched is still tracked. */
  lemma StillTrackedGood<K>(fr: Frame<K>, hit: Hits, tracked: seq<Track<K>>, lost: seq<Track<K>>)
    requires Start(fr) && Midway(fr, hit, tracked, lost) && DealtWith(fr, hit, tracked, [])
    ensures DistinctIds(StillThere(tracked)) && AllGood(fr, hit, StillThere(tracked))
    ensures forall i :: 0 <= i < |fr.tracked| && fr.tracked[i].track_id in hit ==>
              fr.tracked[i].track_id in Ids(StillThere(tracked))
  {
    hide StillThere;
    SameTracks(fr, hit, tracked, lost);
    StillThereExactly(tracked);
    StillThereDistinct(tracked);
    IdsOf(StillThere(tracked));
    forall k | 0 <= k < |StillThere(tracked)|
      ensures Good(fr, hit, StillThere(tracked)[k])
    {
      var i :| 0 <= i < |tracked| && tracked[i] == StillThere(tracked)[k];
      assert Carried(fr, hit, tracked[i], fr.tracked[i]);
    }
    forall i | 0 <= i < |fr.tracked| && fr.tracked[i].track_id in hit
      ensures fr.tracked[i].track_id in Ids(StillThere(tracked))
    {
      assert Carried(fr, hit, tracked[i], fr.tracked[i]);
      assert tracked[i] in StillThere(tracked);
    }
  }

  method KeepTracked<K>(tracked: seq<Track<K>>, ghost fr: Frame<K>, ghost hit: Hits, ghost lost: seq<Track<K>>)
    returns (res: seq<Track<K>>)
    requires Start(fr) && Midway(fr, hit, tracked, lost) && DealtWith(fr, hit, tracked, [])
    ensures DistinctIds(res) && AllGood(fr, hit, res)
    ensures forall i :: 0 <= i < |fr.tracked| && fr.tracked[i].track_id in hit ==> fr.tracked[i].track_id in Ids(res)
    ensures res == StillThere(tracked)
  {
    res := [];
    for i := 0 to |tracked|
      invariant res == StillThere(tracked[..i])
    {
      assert tracked[..i + 1][..i] == tracked[..i];
      if tracked[i].state == Tracked {
        res := res + [tracked[i]];
      }
    }
    assert tracked[..|tracked|] == tracked;
    StillTrackedGood(fr, hit, tracked, lost);
  }

  lemma JointGood<K>(fr: Frame<K>, hit: Hits, a: seq<Track<K>>, b: seq<Track<K>>)
    requires DistinctIds(a) && AllGood(fr, hit, a) && AllGood(fr, hit, b)
    ensures DistinctIds(Joint(a, b)) && AllGood(fr, hit, Joint(a, b))
    ensures Ids(Joint(a, b)) == Ids(a) + Ids(b)
  {
    JointDistinct(a, b);
    JointContents(a, b);
    JointIds(a, b);
    forall i | 0 <= i < |Joint(a, b)|
      ensures Good(fr, hit, Joint(a, b)[i])
    {
      assert Joint(a, b)[i] in a || Joint(a, b)[i] in b;
    }
  }

  /** The next tracked list: tracked ones, newly activated ones, refound ones. */
  method NextTracked<K>(tracked: seq<Track<K>>, activated: seq<Track<K>>, refind: seq<Track<K>>,
                        ghost fr: Frame<K>, ghost hit: Hits, ghost lost: seq<Track<K>>)
    returns (res: seq<Track<K>>)
    requires Start(fr) && Midway(fr, hit, tracked, lost) && DealtWith(fr, hit, tracked, [])
    requires Gathered(fr, hit, activated, refind)
    ensures DistinctIds(res) && AllGood(fr, hit, res) && Ids(refind) <= Ids(res)
    ensures forall i :: 0 <= i < |fr.tracked| && fr.tracked[i].track_id in hit ==> fr.tracked[i].track_id in Ids(res)
    ensures res == Joint(Joint(StillThere(tracked), activated), refind)
  {
    var swap := KeepTracked(tracked, fr, hit, lost);
    var joined := JointStracks(swap, activated);
    JointGood(fr, hit, swap, activated);
    res := JointStracks(joined, refind);
    JointGood(fr, hit, joined, refind);
  }

  lemma StillLost<K>(fr: Frame<K>, hit: Hits, lost: seq<Track<K>>, refind: seq<Track<K>>, tracked: seq<Track<K>>,
                     removed0: set<int>, removed_stracks: seq<Track<K>>, max_time_lost: int, t: Track<K>)
    requires Start(fr) && AllLeftLost(fr, hit, lost) && RefoundListed(fr, hit, refind) && Ids(refind) <= Ids(tracked)
    requires ExpiredListed(fr, hit, lost, max_time_lost, removed_stracks)
    requires AllRecent(fr.lost, fr.now - 1, max_time_lost, removed0)
    requires t in lost && t.track_id !in Ids(tracked) && t.track_id !in removed0
    ensures StaysLost(fr, hit, t) && Recent(t, fr.now, max_time_lost, removed0 + Ids(removed_stracks))
  {
    var i :| 0 <= i < |lost| && lost[i] == t;
    assert LeftLost(fr, hit, lost[i], fr.lost[i]) && Known(fr, fr.lost[i]);
    assert RefOk(fr, InLost(i)) && IdOf(fr, InLost(i)) == t.track_id;
    assert Recent(fr.lost[i], fr.now - 1, max_time_lost, removed0);
  }

  /** The next lost list: lost ones not refound, newly lost ones, without those removed in earlier frames. */
  method NextLost<K>(lost: seq<Track<K>>, tracked: seq<Track<K>>, lost_stracks: seq<Track<K>>, removed: seq<Track<K>>,
                     ghost removed_stracks: seq<Track<K>>, ghost refind: seq<Track<K>>, ghost max_time_lost: int,
                     ghost fr: Frame<K>, ghost hit: Hits)
    returns (res: seq<Track<K>>)
    requires Start(fr) && AllLeftLost(fr, hit, lost) && RefoundListed(fr, hit, refind) && Ids(refind) <= Ids(tracked)
    requires ExpiredListed(fr, hit, lost, max_time_lost, removed_stracks) && NewlyLost(fr, hit, lost_stracks, [])
    requires AllRecent(fr.lost, fr.now - 1, max_time_lost, Ids(removed))
    ensures AscendingIds(res) && forall i :: 0 <= i < |res| ==> StaysLost(fr, hit, res[i])
    ensures AllRecent(res, fr.now, max_time_lost, Ids(removed) + Ids(removed_stracks))
    ensures Ids(res) == Ids(lost) - Ids(tracked) + Ids(lost_stracks) - Ids(removed)
    ensures forall i :: 0 <= i < |res| ==> res[i] in lost + lost_stracks
  {
    hide StaysLost, AllRecent, AllLeftLost, ExpiredListed, NewlyLost, RefoundListed, Start, AscendingIds, Ids;
    var rest := SubStracks(lost, tracked);
    var all := rest;
    for i := 0 to |lost_stracks|
      invariant all == rest + lost_stracks[..i]
    {
      all := all + [lost_stracks[i]];
    }
    assert all == rest + lost_stracks;
    IdsConcat(rest, lost_stracks);
    res := SubStracks(all, removed);
    NextLostMembers(fr, hit, lost, refind, tracked, rest, lost_stracks, removed, removed_stracks, max_time_lost, res);
  }

  /** The tracks of a difference of lists. */
  lemma OfBoth<K>(a: seq<Track<K>>, b: seq<Track<K>>, res: seq<Track<K>>)
    requires Ids(res) == Ids(a) - Ids(b) && forall i :: 0 <= i < |res| ==> FirstOf(a, res[i])
    ensures forall i :: 0 <= i < |res| ==> res[i] in a && res[i].track_id !in Ids(b)
  {
    hide Ids;
    IdsListed(res);
  }

  lemma NextLostMembers<K>(fr: Frame<K>, hit: Hits, lost: seq<Track<K>>, refind: seq<Track<K>>, tracked: seq<Track<K>>,
                           rest: seq<Track<K>>, lost_stracks: seq<Track<K>>, removed: seq<Track<K>>,
                           removed_stracks: seq<Track<K>>, max_time_lost: int, res: seq<Track<K>>)
    requires Start(fr) && AllLeftLost(fr, hit, lost) && RefoundListed(fr, hit, refind) && Ids(refind) <= Ids(tracked)
    requires ExpiredListed(fr, hit, lost, max_time_lost, removed_stracks) && NewlyLost(fr, hit, lost_stracks, [])
    requires AllRecent(fr.lost, fr.now - 1, max_time_lost, Ids(removed))
    requires Ids(rest) == Ids(lost) - Ids(tracked) && forall i :: 0 <= i < |rest| ==> FirstOf(lost, rest[i])
    requires Ids(res) == Ids(rest + lost_stracks) - Ids(removed)
    requires forall i :: 0 <= i < |res| ==> FirstOf(rest + lost_stracks, res[i])
    ensures forall i :: 0 <= i < |res| ==> StaysLost(fr, hit, res[i]) && res[i] in lost + lost_stracks
    ensures AllRecent(res, fr.now, max_time_lost, Ids(removed) + Ids(removed_stracks))
  {
    hide StaysLost, Recent, AllLeftLost, ExpiredListed, NewlyLost, RefoundListed, Start, Ids, FirstOf;
    OfBoth(lost, tracked, rest);
    OfBoth(rest + lost_stracks, removed, res);
    forall i | 0 <= i < |res|
      ensures StaysLost(fr, hit, res[i]) && Recent(res[i], fr.now, max_time_lost, Ids(removed) + Ids(removed_stracks))
      ensures res[i] in lost + lost_stracks
    {
      NextLostMember(fr, hit, lost, refind, tracked, rest, lost_stracks, Ids(removed), removed_stracks, max_time_lost,
                     res[i]);
    }
  }

  lemma NextLostMember<K>(fr: Frame<K>, hit: Hits, lost: seq<Track<K>>, refind: seq<Track<K>>, tracked: seq<Track<K>>,
                          rest: seq<Track<K>>, lost_stracks: seq<Track<K>>,
                          removed0: set<int>, removed_stracks: seq<Track<K>>, max_time_lost: int, t: Track<K>)
    requires Start(fr) && AllLeftLost(fr, hit, lost) && RefoundListed(fr, hit, refind) && Ids(refind) <= Ids(tracked)
    requires ExpiredListed(fr, hit, lost, max_time_lost, removed_stracks) && NewlyLost(fr, hit, lost_stracks, [])
    requires AllRecent(fr.lost, fr.now - 1, max_time_lost, removed0)
    requires forall i :: 0 <= i < |rest| ==> rest[i] in lost && rest[i].track_id !in Ids(tracked)
    requires t in rest + lost_stracks && t.track_id !in removed0
    ensures StaysLost(fr, hit, t) && Recent(t, fr.now, max_time_lost, removed0 + Ids(removed_stracks))
  {
    if t in rest {
      StillLost(fr, hit, lost, refind, tracked, removed0, removed_stracks, max_time_lost, t);
    }
  }

  lemma AllLeftLate<K>(steps: Steps<K>, lost: seq<Track<K>>, next_lost: seq<Track<K>>, now: int, limit: int)
    requires AgedAll(steps.settled.lost, lost, now, limit)
    requires forall i :: 0 <= i < |next_lost| ==> next_lost[i] in lost + steps.lost_stracks
    ensures forall i :: 0 <= i < |next_lost| ==> LeftLate(steps, now, limit, next_lost[i])
  {
    forall i | 0 <= i < |next_lost|
      ensures LeftLate(steps, now, limit, next_lost[i])
    {
      if next_lost[i] !in steps.lost_stracks {
        var j :| 0 <= j < |lost| && lost[j] == next_lost[i];
        assert next_lost[i] == Aged(steps.settled.lost[j], now, limit);
      }
    }
  }

  /** Dropping duplicates keeps what holds of both lists and leaves no close pair. */
  lemma DropDuplicates<K>(fr: Frame<K>, hit: Hits, tracked: seq<Track<K>>, lost: seq<Track<K>>, max_time_lost: int,
                          removed: set<int>)
    requires End(fr, hit, tracked, lost) && AllRecent(lost, fr.now, max_time_lost, removed)
    ensures End(fr, hit, Kept(tracked, DroppedA(tracked, lost)), Kept(lost, DroppedB(tracked, lost)))
    ensures AllRecent(Kept(lost, DroppedB(tracked, lost)), fr.now, max_time_lost, removed)
    ensures Apart(Kept(tracked, DroppedA(tracked, lost)), Kept(lost, DroppedB(tracked, lost)))
  {
    var resa, resb := Kept(tracked, DroppedA(tracked, lost)), Kept(lost, DroppedB(tracked, lost));
    KeptAscending(tracked, DroppedA(tracked, lost));
    KeptAscending(lost, DroppedB(tracked, lost));
    KeptMembers(tracked, DroppedA(tracked, lost));
    KeptMembers(lost, DroppedB(tracked, lost));
    forall k | 0 <= k < |resa| ensures Good(fr, hit, resa[k]) {
      assert resa[k] in tracked;
    }
    forall l | 0 <= l < |resb|
      ensures StaysLost(fr, hit, resb[l]) && Recent(resb[l], fr.now, max_time_lost, removed)
    {
      assert resb[l] in lost;
    }
    forall k, l | 0 <= k < |resa| && 0 <= l < |resb| ensures !Close(resa[k], resb[l]) {
      SurvivorsApart(tracked, lost, k, l);
    }
  }

  ghost function Objects<K>(hit: Hits, ts: seq<Track<K>>): seq<int>
    requires forall i :: 0 <= i < |ts| ==> ts[i].track_id in hit
  {
    seq(|ts|, i requires 0 <= i < |ts| => hit[ts[i].track_id])
  }

  /** Tracks that own different objects are no more than the objects. */
  lemma NoMoreThanObjects<K>(fr: Frame<K>, hit: Hits, ts: seq<Track<K>>, lost: seq<Track<K>>)
    requires End(fr, hit, ts, lost)
    ensures |ts| <= |fr.objects|
  {
    Pigeonhole(Objects(hit, ts), |fr.objects|);
  }

  lemma ContinuingIds<K>(fr: Frame<K>, a: int)
    requires Start(fr) && Continuing(fr, a)
    ensures a in Ids(fr.tracked) + Ids(fr.lost) && 1 <= a <= fr.count
  {
    IdsOf(fr.tracked);
    IdsOf(fr.lost);
    var r :| RefOk(fr, r) && IdOf(fr, r) == a;
    IdsTellRefsApart(fr, r, r);
  }

  lemma HitIdRange<K>(fr: Frame<K>, hit: Hits, count: int, a: int)
    requires Start(fr) && HitIds(fr, hit, count) && fr.count <= count && a in hit
    ensures 1 <= a <= count && (a in Ids(fr.tracked) + Ids(fr.lost) || fr.count < a)
  {
    if Continuing(fr, a) { ContinuingIds(fr, a); }
  }

  /** Identifiers after a frame: old ones continue, new ones were issued in this frame. */
  lemma FrameIds<K>(fr: Frame<K>, hit: Hits, tracked: seq<Track<K>>, lost: seq<Track<K>>, count: int)
    requires Start(fr) && HitIds(fr, hit, count) && fr.count <= count && End(fr, hit, tracked, lost)
    ensures forall a :: a in Ids(tracked) ==> a in Ids(fr.tracked) + Ids(fr.lost) || fr.count < a <= count
    ensures Ids(lost) <= Ids(fr.tracked) + Ids(fr.lost)
  {
    forall a | a in Ids(tracked)
      ensures a in Ids(fr.tracked) + Ids(fr.lost) || fr.count < a <= count
    {
      var i := IdAt(tracked, a);
      assert Good(fr, hit, tracked[i]);
      HitIdRange(fr, hit, count, a);
    }
    forall a | a in Ids(lost) ensures a in Ids(fr.tracked) + Ids(fr.lost) {
      var j := IdAt(lost, a);
      assert StaysLost(fr, hit, lost[j]);
      ContinuingIds(fr, a);
    }
  }

  /** A tracked track was matched or born in the frame just processed. */
  ghost predicate Current<K>(t: Track<K>, now: int, count: int) {
    && t.state == Tracked && t.frame_id == now && 1 <= t.track_id <= count
    && 1 <= t.start_frame <= now
    && (if t.is_activated then t.start_frame < now || now == 1 else t.start_frame == now > 1)
  }

  /** A lost track was last matched before, but not too long ago. */
  ghost predicate Missing<K>(t: Track<K>, now: int, count: int, removed: set<int>, max_time_lost: int) {
    && t.state != Tracked && t.frame_id < now && 1 <= t.track_id <= count
    && 1 <= t.start_frame < now && Recent(t, now, max_time_lost, removed)
  }

  /** The lists between two frames. */
  ghost predicate Steady<K>(now: int, count: int, tracked: seq<Track<K>>, lost: seq<Track<K>>, removed: set<int>,
                            max_time_lost: int)
  {
    && 0 <= now && 0 <= count
    && (forall i :: 0 <= i < |tracked| ==> Current(tracked[i], now, count))
    && (forall i :: 0 <= i < |lost| ==> Missing(lost[i], now, count, removed, max_time_lost))
    && DistinctIds(tracked) && AscendingIds(lost)
    && (forall i, j :: 0 <= i < |tracked| && 0 <= j < |lost| ==> tracked[i].track_id != lost[j].track_id)
  }

  lemma BeginFrame<K>(fr: Frame<K>, removed: set<int>, max_time_lost: int)
    requires Steady(fr.now - 1, fr.count, fr.tracked, fr.lost, removed, max_time_lost)
    ensures Start(fr) && AllRecent(fr.lost, fr.now - 1, max_time_lost, removed)
  {
  }

  /** Every track took its score from an object of the frame, no two tracks from the same one. */
  ghost predicate OneObjectEach<K>(objects: seq<Object>, hit: Hits, ts: seq<Track<K>>) {
    && (forall i :: 0 <= i < |ts| ==> ts[i].track_id in hit && 0 <= hit[ts[i].track_id] < |objects|)
    && (forall i :: 0 <= i < |ts| ==> ts[i].score == objects[hit[ts[i].track_id]].prob)
    && (forall i, j :: 0 <= i < j < |ts| ==> hit[ts[i].track_id] != hit[ts[j].track_id])
  }

  /** A frame restores what it found. */
  lemma FrameInvariant<K>(fr: Frame<K>, hit: Hits, tracked: seq<Track<K>>, lost: seq<Track<K>>, count: int,
                          removed: set<int>, max_time_lost: int)
    requires Start(fr) && HitIds(fr, hit, count) && fr.count <= count && End(fr, hit, tracked, lost)
    requires AllRecent(lost, fr.now, max_time_lost, removed)
    ensures Steady(fr.now, count, tracked, lost, removed, max_time_lost)
    ensures OneObjectEach(fr.objects, hit, tracked)
  {
  }

  /** The lists are what dropping duplicates leaves of two others. */
  ghost predicate Deduplicated<K>(all_tracked: seq<Track<K>>, all_lost: seq<Track<K>>, tracked: seq<Track<K>>,
                                  lost: seq<Track<K>>)
  {
    && tracked == Kept(all_tracked, DroppedA(all_tracked, all_lost))
    && lost == Kept(all_lost, DroppedB(all_tracked, all_lost))
  }

  lemma LongestKept<K>(all_tracked: seq<Track<K>>, all_lost: seq<Track<K>>, tracked: seq<Track<K>>, lost: seq<Track<K>>)
    requires Deduplicated(all_tracked, all_lost, tracked, lost)
    ensures LongestStay(all_tracked, all_lost, tracked, lost)
  {
    hide LongestStay;
    LongestStays(all_tracked, all_lost);
  }

  /** Every track the frame began with is among `ids`. */
  ghost predicate Conserved<K>(fr: Frame<K>, ids: set<int>) {
    && (forall i :: 0 <= i < |fr.tracked| ==> fr.tracked[i].track_id in ids)
    && (forall i :: 0 <= i < |fr.lost| ==> fr.lost[i].track_id in ids)
  }

  lemma ConservedIds<K>(fr: Frame<K>, ids: set<int>)
    requires Conserved(fr, ids)
    ensures Ids(fr.tracked) + Ids(fr.lost) <= ids
  {
    forall a | a in Ids(fr.tracked) ensures a in ids {
      var i := IdAt(fr.tracked, a);
    }
    forall a | a in Ids(fr.lost) ensures a in ids {
      var i := IdAt(fr.lost, a);
    }
  }

  /** A track the frame began with is tracked or lost in the next lists, or is on the list of removed ones. */
  lemma NobodyVanishes<K>(fr: Frame<K>, hit: Hits, lost: seq<Track<K>>, trackedIds: set<int>, lostIds: set<int>,
                          lost_stracks: seq<Track<K>>, removed: seq<Track<K>>, removed0: seq<Track<K>>,
                          removed_stracks: seq<Track<K>>)
    requires AllLeftLost(fr, hit, lost)
    requires Accounted(fr, hit, [], Ids(lost_stracks) + Ids(removed0)) && Ids(removed0) <= Ids(removed_stracks)
    requires forall i :: 0 <= i < |fr.tracked| && fr.tracked[i].track_id in hit ==> fr.tracked[i].track_id in trackedIds
    requires lostIds == Ids(lost) - trackedIds + Ids(lost_stracks) - Ids(removed)
    ensures Ids(removed + removed_stracks) == Ids(removed) + Ids(removed_stracks)
    ensures Conserved(fr, trackedIds + lostIds + Ids(removed + removed_stracks))
  {
    IdsConcat(removed, removed_stracks);
    IdsOf(lost);
    forall i | 0 <= i < |fr.lost|
      ensures fr.lost[i].track_id in trackedIds + lostIds + Ids(removed + removed_stracks)
    {
      assert LeftLost(fr, hit, lost[i], fr.lost[i]);
    }
  }

  /** Every object of high score belongs to a track matched or born in this frame. */
  ghost predicate ConfidentServed(objects: seq<Object>, hit: Hits) {
    forall o :: 0 <= o < |objects| && objects[o].prob >= 0.6 ==> !Unused(hit, o)
  }

  lemma NobodyIgnored<K>(objects: seq<Object>, hit1: Hits, hit2: Hits, hit3: Hits, hit: Hits, highSrc: seq<int>,
                         cp: seq<Track<K>>, cpSrc: seq<int>, u_detection: seq<int>)
    requires SplitOff(objects, highSrc, true) && Detected(objects, cp, cpSrc) && Within(u_detection, |cp|)
    requires Served(hit1, highSrc, cpSrc) && Extends(hit1, hit2) && Extends(hit2, hit3) && Extends(hit3, hit)
    requires forall j :: 0 <= j < |cpSrc| && j !in u_detection ==> !Unused(hit3, cpSrc[j])
    requires forall k :: 0 <= k < |u_detection| && cp[u_detection[k]].score >= HIGH_THRESH ==>
               !Unused(hit, cpSrc[u_detection[k]])
    ensures ConfidentServed(objects, hit)
  {
  }

  /** Identifiers issued in this frame went to objects of high score. */
  ghost predicate BornConfident<K>(fr: Frame<K>, hit: Hits) {
    forall a :: a in hit && a > fr.count ==> Confident(fr.objects, hit[a])
  }

  lemma NewTracksScore<K>(fr: Frame<K>, hit: Hits, tracked: seq<Track<K>>, lost: seq<Track<K>>)
    requires End(fr, hit, tracked, lost) && BornConfident(fr, hit)
    ensures forall i :: 0 <= i < |tracked| && tracked[i].track_id > fr.count ==> tracked[i].score >= 0.6
  {
  }

  lemma NewbornsScore<K>(fr: Frame<K>, hit3: Hits, hit: Hits)
    requires Start(fr) && HitIds(fr, hit3, fr.count)
    requires forall a :: a in hit && a !in hit3 ==> Confident(fr.objects, hit[a])
    ensures BornConfident(fr, hit)
  {
  }
}
