/** The predicates kept from step to step of a frame, and the lemmas that carry them over. */
module TrackerSteps {
  import opened Permutations
  import opened Iou
  import opened Tracks
  import opened Association
  import opened TrackerFrame

  const TRACK_THRESH: real := 0.5
  const HIGH_THRESH: real := 0.6
  const MATCH_THRESH: real := 0.8

  /** `STrack::STrack` on the box of an object. */
  function Detection<K>(o: Object): Track<K> {
    Track(0, New, false, 0, 0, 0, o.prob, None,
          Box(o.rect.x, o.rect.y, o.rect.x + o.rect.width, o.rect.y + o.rect.height))
  }

  /** The detections were made from the objects at these positions. */
  ghost predicate Detected<K>(objects: seq<Object>, dets: seq<Track<K>>, src: seq<int>) {
    && |dets| == |src| && Distinct(src) && Within(src, |objects|)
    && (forall k :: 0 <= k < |dets| ==> dets[k] == Detection(objects[src[k]]))
  }

  /** The positions are those of the confident objects, or those of all others, in order. */
  ghost predicate SplitOff(objects: seq<Object>, src: seq<int>, confident: bool) {
    && Ascending(src) && Within(src, |objects|)
    && (forall i :: 0 <= i < |objects| ==> (i in src <==> (objects[i].prob >= TRACK_THRESH) == confident))
  }

  ghost predicate Extends(hit: Hits, hit': Hits) {
    forall a :: a in hit ==> a in hit' && hit'[a] == hit[a]
  }

  ghost predicate RefsOk<K>(fr: Frame<K>, refs: seq<Ref>) {
    Distinct(refs) && forall k :: 0 <= k < |refs| ==> RefOk(fr, refs[k])
  }

  /** The places taken by the pairs of an association. */
  ghost predicate Taken(refs: seq<Ref>, rows: set<int>, r: Ref) {
    exists k :: 0 <= k < |refs| && k in rows && refs[k] == r
  }

  /** After some pairs were applied: exactly the tracks of `rows` and the objects of `cols` were used up. */
  ghost predicate Applied<K>(fr: Frame<K>, hit0: Hits, hit: Hits, refs: seq<Ref>, src: seq<int>, rows: set<int>,
                             cols: set<int>)
  {
    && Extends(hit0, hit)
    && (forall r :: RefOk(fr, r) ==> (IdOf(fr, r) in hit <==> IdOf(fr, r) in hit0 || Taken(refs, rows, r)))
    && (forall a :: a in hit ==> a in hit0 || exists r :: RefOk(fr, r) && IdOf(fr, r) == a)
    && (forall o :: Unused(hit0, o) && (forall j :: 0 <= j < |src| && j in cols ==> src[j] != o) ==> Unused(hit, o))
  }

  lemma FirstsAppend(matches: seq<(int, int)>, k: nat)
    requires k < |matches|
    ensures Firsts(matches[..k + 1]) == Firsts(matches[..k]) + {matches[k].0}
    ensures Seconds(matches[..k + 1]) == Seconds(matches[..k]) + {matches[k].1}
  {
    var p, q := matches[..k], matches[..k + 1];
    assert forall i :: 0 <= i < k ==> q[i] == p[i] == matches[i];
    assert q[k] == matches[k];
  }

  /** The next pair concerns a track and an object that are still free. */
  lemma NextIsFree<K>(fr: Frame<K>, hit0: Hits, hit: Hits, refs: seq<Ref>, src: seq<int>,
                      matches: seq<(int, int)>, k: nat)
    requires Start(fr) && RefsOk(fr, refs) && Distinct(src) && OneToOne(matches, |refs|, |src|) && k < |matches|
    requires Applied(fr, hit0, hit, refs, src, Firsts(matches[..k]), Seconds(matches[..k]))
    requires IdOf(fr, refs[matches[k].0]) !in hit0 && Unused(hit0, src[matches[k].1])
    ensures IdOf(fr, refs[matches[k].0]) !in hit && Unused(hit, src[matches[k].1])
  {
  }

  lemma ApplyNext<K>(fr: Frame<K>, hit0: Hits, hit: Hits, refs: seq<Ref>, src: seq<int>, rows: set<int>, cols: set<int>,
                     row: int, col: int)
    requires Start(fr) && RefsOk(fr, refs) && 0 <= row < |refs| && 0 <= col < |src|
    requires Applied(fr, hit0, hit, refs, src, rows, cols) && IdOf(fr, refs[row]) !in hit
    ensures Applied(fr, hit0, hit[IdOf(fr, refs[row]) := src[col]], refs, src, rows + {row}, cols + {col})
  {
  }

  /** Every lost track found again in this frame is on the list of refound tracks. */
  ghost predicate RefoundListed<K>(fr: Frame<K>, hit: Hits, refind: seq<Track<K>>) {
    forall i :: 0 <= i < |fr.lost| && fr.lost[i].track_id in hit ==> fr.lost[i].track_id in Ids(refind)
  }

  /** The lists built so far hold tracks matched or born in this frame. */
  ghost predicate Gathered<K>(fr: Frame<K>, hit: Hits, activated: seq<Track<K>>, refind: seq<Track<K>>) {
    AllGood(fr, hit, activated) && AllGood(fr, hit, refind) && RefoundListed(fr, hit, refind)
  }

  /** Nothing but the matched tracks was touched. */
  ghost predicate Untouched<K>(hit: Hits, before: seq<Track<K>>, after: seq<Track<K>>) {
    |before| == |after| && forall i :: 0 <= i < |after| && after[i].track_id !in hit ==> after[i] == before[i]
  }

  lemma GatherOne<K>(fr: Frame<K>, hit: Hits, r: Ref, o: int, t: Track<K>, activated: seq<Track<K>>,
                     refind: seq<Track<K>>)
    requires Start(fr) && HitsOk(fr, hit) && RefOk(fr, r) && IdOf(fr, r) !in hit && Unused(hit, o) &&
             0 <= o < |fr.objects|
    requires Gathered(fr, hit, activated, refind) && t.track_id == IdOf(fr, r) && Good(fr, hit[IdOf(fr, r) := o], t)
    ensures r.InTracked? ==> Gathered(fr, hit[IdOf(fr, r) := o], activated + [t], refind)
    ensures r.InLost? ==> Gathered(fr, hit[IdOf(fr, r) := o], activated, refind + [t])
  {
  }

  lemma SplitApart(objects: seq<Object>, highSrc: seq<int>, lowSrc: seq<int>)
    requires SplitOff(objects, highSrc, true) && SplitOff(objects, lowSrc, false)
    ensures forall j :: 0 <= j < |lowSrc| ==> lowSrc[j] !in highSrc
  {
  }

  lemma SplitNext<K>(objects: seq<Object>, i: nat, dets: seq<Track<K>>, src: seq<int>, confident: bool)
    requires i < |objects|
    requires Detected(objects, dets, src) && SplitOff(objects[..i], src, confident)
    ensures if (objects[i].prob >= TRACK_THRESH) == confident
            then Detected(objects, dets + [Detection(objects[i])], src + [i]) &&
            SplitOff(objects[..i + 1], src + [i], confident)
            else SplitOff(objects[..i + 1], src, confident)
  {
    assert i in src + [i] && forall j :: j in src + [i] ==> j == i || j in src;
    assert forall j :: 0 <= j < i ==> objects[..i + 1][j] == objects[..i][j];
  }

  lemma NothingSplit<K>(objects: seq<Object>)
    ensures Detected<K>(objects, [], []) && SplitOff(objects[..0], [], true) && SplitOff(objects[..0], [], false)
  {
  }

  /** Splits the objects at the tracking threshold. */
  method SplitDetections<K>(objects: seq<Object>)
    returns (high: seq<Track<K>>, low: seq<Track<K>>, ghost highSrc: seq<int>, ghost lowSrc: seq<int>)
    ensures Detected(objects, high, highSrc) && SplitOff(objects, highSrc, true)
    ensures Detected(objects, low, lowSrc) && SplitOff(objects, lowSrc, false)
    ensures |high| + |low| == |objects|
    ensures forall j :: 0 <= j < |high| ==> high[j].score >= TRACK_THRESH
    ensures forall j :: 0 <= j < |low| ==> low[j].score < TRACK_THRESH
  {
    hide Detected, SplitOff;
    high, low, highSrc, lowSrc := [], [], [], [];
    NothingSplit<K>(objects);
    for i := 0 to |objects|
      invariant Detected(objects, high, highSrc) && SplitOff(objects[..i], highSrc, true)
      invariant Detected(objects, low, lowSrc) && SplitOff(objects[..i], lowSrc, false)
      invariant |high| + |low| == i
      invariant forall j :: 0 <= j < |high| ==> high[j].score >= TRACK_THRESH
      invariant forall j :: 0 <= j < |low| ==> low[j].score < TRACK_THRESH
    {
      var strack := Detection(objects[i]);
      SplitNext(objects, i, high, highSrc, true);
      SplitNext(objects, i, low, lowSrc, false);
      if strack.score >= TRACK_THRESH {
        high := high + [strack];
        highSrc := highSrc + [i];
      } else {
        low := low + [strack];
        lowSrc := lowSrc + [i];
      }
    }
    assert objects[..|objects|] == objects;
  }

  /** The detections at the listed positions. */
  method Select<K>(dets: seq<Track<K>>, at: seq<int>, ghost objects: seq<Object>, ghost src: seq<int>)
    returns (res: seq<Track<K>>, ghost resSrc: seq<int>)
    requires Detected(objects, dets, src) && Distinct(at) && Within(at, |dets|)
    ensures Detected(objects, res, resSrc)
    ensures |resSrc| == |at| && forall k :: 0 <= k < |at| ==> resSrc[k] == src[at[k]]
    ensures |res| == |at| && forall k :: 0 <= k < |at| ==> res[k] == dets[at[k]]
  {
    res, resSrc := [], [];
    for k := 0 to |at|
      invariant |res| == |resSrc| == k
      invariant forall l :: 0 <= l < k ==> res[l] == dets[at[l]] && resSrc[l] == src[at[l]]
    {
      res := res + [dets[at[k]]];
      resSrc := resSrc + [src[at[k]]];
    }
  }

  /** Tracks of the tracked list still to be dealt with in this frame. */
  ghost predicate Waiting<K>(fr: Frame<K>, hit: Hits, tracked: seq<Track<K>>, refs: seq<Ref>)
    requires |tracked| == |fr.tracked|
  {
    && RefsOk(fr, refs)
    && (forall k :: 0 <= k < |refs| ==> refs[k].InTracked?)
    && (forall k :: 0 <= k < |refs| ==> IdOf(fr, refs[k]) !in hit && tracked[refs[k].i].state == Tracked)
  }

  /** Apart from the waiting ones, every entry of the tracked list was matched or has left state Tracked. */
  ghost predicate DealtWith<K>(fr: Frame<K>, hit: Hits, tracked: seq<Track<K>>, waiting: seq<Ref>)
    requires |tracked| == |fr.tracked|
  {
    forall i :: 0 <= i < |tracked| ==>
      tracked[i].track_id in hit || InTracked(i) in waiting || tracked[i].state != Tracked
  }

  /** The places of the tracks with or without the activation flag, in order. */
  function Places<K>(ts: seq<Track<K>>, activated: bool): seq<Ref> {
    if ts == [] then []
    else
      var front := Places(ts[..|ts| - 1], activated);
      if ts[|ts| - 1].is_activated == activated then front + [InTracked(|ts| - 1)] else front
  }

  lemma PlacesNext<K>(ts: seq<Track<K>>, i: nat, activated: bool)
    requires i < |ts|
    ensures Places(ts[..i + 1], activated) ==
            Places(ts[..i], activated) + if ts[i].is_activated == activated then [InTracked(i)] else []
  {
    assert ts[..i + 1][..i] == ts[..i];
  }

  lemma NoPlaces<K>(ts: seq<Track<K>>)
    ensures Places(ts[..0], true) == Places(ts[..0], false) == []
  {
  }

  lemma LostPlacesNext(n: nat)
    ensures LostPlaces(n + 1) == LostPlaces(n) + [InLost(n)]
  {
  }

  function LostPlaces(n: nat): (refs: seq<Ref>)
    ensures |refs| == n && forall i :: 0 <= i < n ==> refs[i] == InLost(i)
  {
    seq(n, i requires 0 <= i < n => InLost(i))
  }

  lemma {:induction false} TrackedAtExactly(refs: seq<Ref>, at: seq<int>)
    requires Within(at, |refs|) && Distinct(at) && Distinct(refs)
    ensures Distinct(TrackedAt(refs, at))
    ensures forall r :: r in TrackedAt(refs, at) <==> r.InTracked? && exists k :: 0 <= k < |at| && refs[at[k]] == r
  {
    if at != [] {
      var front, last := at[..|at| - 1], refs[at[|at| - 1]];
      TrackedAtExactly(refs, front);
      assert forall k :: 0 <= k < |front| ==> front[k] == at[k] && refs[front[k]] != last;
      forall r
        ensures r in TrackedAt(refs, at) <==> r.InTracked? && exists k :: 0 <= k < |at| && refs[at[k]] == r
      {
        NamedNext(refs, at, r);
      }
    }
  }

  lemma NamedNext(refs: seq<Ref>, at: seq<int>, r: Ref)
    requires at != [] && Within(at, |refs|)
    ensures var front := at[..|at| - 1];
            (exists k :: 0 <= k < |at| && refs[at[k]] == r) <==>
            (exists k :: 0 <= k < |front| && refs[front[k]] == r) || refs[at[|at| - 1]] == r
  {
    var front := at[..|at| - 1];
    if k :| 0 <= k < |at| && refs[at[k]] == r {
      if k < |front| {
        assert front[k] == at[k];
      }
    }
    if k :| 0 <= k < |front| && refs[front[k]] == r {
      assert at[k] == front[k];
    }
  }

  /** Once the first association is done, exactly its unmatched tracked ones wait for the next. */
  lemma LeftWaiting<K>(fr: Frame<K>, hit: Hits, tracked: seq<Track<K>>, pool: seq<Ref>, ua: seq<int>)
    requires |tracked| == |fr.tracked| && RefsOk(fr, pool) && Distinct(ua) && Within(ua, |pool|)
    requires forall k :: 0 <= k < |ua| ==> IdOf(fr, pool[ua[k]]) !in hit
    requires forall k :: 0 <= k < |pool| && pool[k].InTracked? && IdOf(fr, pool[k]) !in hit ==>
               tracked[pool[k].i].state == Tracked
    ensures Waiting(fr, hit, tracked, TrackedAt(pool, ua))
    ensures forall k :: 0 <= k < |TrackedAt(pool, ua)| ==> TrackedAt(pool, ua)[k] in pool
    ensures forall k :: 0 <= k < |ua| && pool[ua[k]].InTracked? ==> pool[ua[k]] in TrackedAt(pool, ua)
  {
    TrackedAtExactly(pool, ua);
    var refs := TrackedAt(pool, ua);
    forall k | 0 <= k < |refs|
      ensures RefOk(fr, refs[k]) && refs[k].InTracked? && refs[k] in pool
      ensures IdOf(fr, refs[k]) !in hit && tracked[refs[k].i].state == Tracked
    {
      assert refs[k] in refs;
      var l :| 0 <= l < |ua| && pool[ua[l]] == refs[k];
    }
  }

  /** The identifier of a lost track is none of those in front of it. */
  lemma LostIsAbsent<K>(fr: Frame<K>, i: nat)
    requires Start(fr) && i < |fr.lost|
    ensures fr.lost[i].track_id !in Ids(fr.tracked) + Ids(fr.lost[..i])
  {
    IdsOf(fr.tracked);
    IdsOf(fr.lost[..i]);
  }

  /** The tracked ones among the listed places. */
  function TrackedAt(refs: seq<Ref>, at: seq<int>): seq<Ref>
    requires Within(at, |refs|)
  {
    if at == [] then []
    else
      var front, r := TrackedAt(refs, at[..|at| - 1]), refs[at[|at| - 1]];
      if r.InTracked? then front + [r] else front
  }

  lemma {:induction false} PlacesExactly<K>(ts: seq<Track<K>>, activated: bool)
    ensures Distinct(Places(ts, activated))
    ensures forall r :: r in Places(ts, activated) <==>
              r.InTracked? && r.i < |ts| && ts[r.i].is_activated == activated
  {
    if ts != [] {
      PlacesExactly(ts[..|ts| - 1], activated);
    }
  }

  /** The pools of the frame: activated tracks with the lost ones, and the unconfirmed tracks. */
  ghost predicate Pools<K>(fr: Frame<K>, pool: seq<Ref>, unconfirmed: seq<Ref>) {
    && RefsOk(fr, pool) && RefsOk(fr, unconfirmed)
    && (forall k :: 0 <= k < |unconfirmed| ==> unconfirmed[k].InTracked? && unconfirmed[k] !in pool)
    && (forall i :: 0 <= i < |fr.tracked| ==> InTracked(i) in pool || InTracked(i) in unconfirmed)
    && (forall i :: 0 <= i < |fr.lost| ==> InLost(i) in pool)
  }

  /** What an applied association means for the pool: exactly the left-over rows stay unmatched. */
  lemma AppliedRows<K>(fr: Frame<K>, hit0: Hits, hit: Hits, refs: seq<Ref>, src: seq<int>,
                       matches: seq<(int, int)>, ua: seq<int>, ub: seq<int>)
    requires Start(fr) && RefsOk(fr, refs) && Associated(matches, ua, ub, |refs|, |src|)
    requires Applied(fr, hit0, hit, refs, src, Firsts(matches), Seconds(matches))
    requires forall k :: 0 <= k < |refs| ==> IdOf(fr, refs[k]) !in hit0
    ensures forall k :: 0 <= k < |refs| ==> (IdOf(fr, refs[k]) !in hit <==> k in ua)
  {
  }

  /** Detections left over by an association can be used by a later one. */
  ghost predicate Available<K>(fr: Frame<K>, hit: Hits, dets: seq<Track<K>>, src: seq<int>) {
    Detected(fr.objects, dets, src) && forall j :: 0 <= j < |src| ==> Unused(hit, src[j])
  }

  /** The identifier belongs to a track of the lists the frame began with. */
  ghost predicate Continuing<K>(fr: Frame<K>, a: int) {
    exists r :: RefOk(fr, r) && IdOf(fr, r) == a
  }

  /** Matched identifiers continue a track or were issued in this frame. */
  ghost predicate HitIds<K>(fr: Frame<K>, hit: Hits, count: int) {
    forall a :: a in hit ==> Continuing(fr, a) || fr.count < a <= count
  }

  lemma AppliedIds<K>(fr: Frame<K>, hit0: Hits, hit: Hits, refs: seq<Ref>, src: seq<int>, rows: set<int>,
                      cols: set<int>)
    requires Applied(fr, hit0, hit, refs, src, rows, cols) && HitIds(fr, hit0, fr.count)
    ensures HitIds(fr, hit, fr.count)
  {
  }

  /** Copies of tracks marked lost in this frame: known ones that are neither matched nor waiting. */
  ghost predicate NewlyLost<K>(fr: Frame<K>, hit: Hits, ts: seq<Track<K>>, waiting: seq<Ref>)
    requires RefsOk(fr, waiting)
  {
    && (forall i :: 0 <= i < |ts| ==> Known(fr, ts[i]) && ts[i].state == Lost && ts[i].frame_id == fr.now - 1)
    && (forall i :: 0 <= i < |ts| ==> Continuing(fr, ts[i].track_id))
    && (forall i :: 0 <= i < |ts| ==> ts[i].track_id !in hit)
    && (forall i, k :: 0 <= i < |ts| && 0 <= k < |waiting| ==> ts[i].track_id != IdOf(fr, waiting[k]))
  }

  lemma NewIdUnused<K>(fr: Frame<K>, hit: Hits, id: int)
    requires Start(fr) && fr.count < id && HitIds(fr, hit, id - 1)
    ensures id !in hit
  {
  }

  lemma BirthKeeps<K>(fr: Frame<K>, hit: Hits, id: int, o: int, t: Track<K>, tracked: seq<Track<K>>,
                      lost: seq<Track<K>>, activated: seq<Track<K>>, refind: seq<Track<K>>, lost_stracks: seq<Track<K>>)
    requires Start(fr) && Midway(fr, hit, tracked, lost) && Gathered(fr, hit, activated, refind)
    requires DealtWith(fr, hit, tracked, []) && NewlyLost(fr, hit, lost_stracks, [])
    requires fr.count < id && id !in hit && Unused(hit, o) && 0 <= o < |fr.objects|
    requires t.track_id == id && Good(fr, hit[id := o], t)
    ensures Midway(fr, hit[id := o], tracked, lost) && Gathered(fr, hit[id := o], activated + [t], refind)
    ensures DealtWith(fr, hit[id := o], tracked, []) && NewlyLost(fr, hit[id := o], lost_stracks, [])
  {
  }

  lemma AfterThird<K>(fr: Frame<K>, hit0: Hits, hit: Hits, unconfirmed: seq<Ref>, cpSrc: seq<int>,
                      lost_stracks: seq<Track<K>>, matches: seq<(int, int)>, ua: seq<int>, ub: seq<int>)
    requires Start(fr) && RefsOk(fr, unconfirmed) && Distinct(cpSrc)
    requires Associated(matches, ua, ub, |unconfirmed|, |cpSrc|)
    requires Applied(fr, hit0, hit, unconfirmed, cpSrc, Firsts(matches), Seconds(matches))
    requires forall j :: 0 <= j < |cpSrc| ==> Unused(hit0, cpSrc[j])
    requires NewlyLost(fr, hit0, lost_stracks, unconfirmed)
    ensures NewlyLost(fr, hit, lost_stracks, [])
    ensures forall k :: 0 <= k < |ub| ==> Unused(hit, cpSrc[ub[k]])
  {
  }

  lemma AfterMarkRemoved<K>(fr: Frame<K>, hit0: Hits, hit: Hits, t0: seq<Track<K>>, t1: seq<Track<K>>,
                            t2: seq<Track<K>>, unconfirmed: seq<Ref>, ua: seq<int>)
    requires RefsOk(fr, unconfirmed) && |t0| == |t1| == |t2| == |fr.tracked| && Within(ua, |unconfirmed|)
    requires Untouched(hit, t0, t1) && Extends(hit0, hit) && DealtWith(fr, hit0, t0, unconfirmed)
    requires forall i :: 0 <= i < |t1| ==> t1[i].track_id == fr.tracked[i].track_id == t0[i].track_id == t2[i].track_id
    requires forall k :: 0 <= k < |unconfirmed| ==>
               unconfirmed[k].InTracked? && (IdOf(fr, unconfirmed[k]) !in hit <==> k in ua)
    requires forall k :: 0 <= k < |ua| ==> t2[unconfirmed[ua[k]].i].state == Removed
    requires forall i :: 0 <= i < |t2| && (InTracked(i) !in unconfirmed || t2[i].track_id in hit) ==> t2[i] == t1[i]
    ensures DealtWith(fr, hit, t2, [])
  {
  }

  lemma LostIsNew<K>(fr: Frame<K>, hit: Hits, ts: seq<Track<K>>, t: Track<K>, waiting: seq<Ref>, r: Ref)
    requires Start(fr) && RefsOk(fr, waiting) && NewlyLost(fr, hit, ts, waiting)
    requires RefOk(fr, r) && r !in waiting && t.track_id == IdOf(fr, r) && IdOf(fr, r) !in hit
    requires Known(fr, t) && t.state == Lost && t.frame_id == fr.now - 1
    ensures NewlyLost(fr, hit, ts + [t], waiting)
  {
  }

  lemma AfterMarkLost<K>(fr: Frame<K>, hit0: Hits, hit: Hits, t0: seq<Track<K>>, t1: seq<Track<K>>, t2: seq<Track<K>>,
                         r_tracked: seq<Ref>, unconfirmed: seq<Ref>, ua: seq<int>)
    requires RefsOk(fr, r_tracked) && |t0| == |t1| == |t2| == |fr.tracked| && Within(ua, |r_tracked|)
    requires Waiting(fr, hit, t1, unconfirmed) && Untouched(hit, t0, t1) && Extends(hit0, hit)
    requires DealtWith(fr, hit0, t0, r_tracked + unconfirmed)
    requires forall i :: 0 <= i < |t1| ==> t1[i].track_id == fr.tracked[i].track_id == t0[i].track_id == t2[i].track_id
    requires forall k :: 0 <= k < |unconfirmed| ==> unconfirmed[k] !in r_tracked
    requires forall k :: 0 <= k < |r_tracked| ==>
               r_tracked[k].InTracked? && (IdOf(fr, r_tracked[k]) !in hit <==> k in ua)
    requires forall k :: 0 <= k < |ua| ==> t2[r_tracked[ua[k]].i].state == Lost
    requires forall i :: 0 <= i < |t2| && (InTracked(i) !in r_tracked || t2[i].track_id in hit) ==> t2[i] == t1[i]
    ensures Waiting(fr, hit, t2, unconfirmed) && DealtWith(fr, hit, t2, unconfirmed)
  {
  }

  lemma AfterSecond<K>(fr: Frame<K>, hit0: Hits, hit: Hits, t0: seq<Track<K>>, t1: seq<Track<K>>,
                       r_tracked: seq<Ref>, unconfirmed: seq<Ref>, lowSrc: seq<int>, cpSrc: seq<int>,
                       matches: seq<(int, int)>, ua: seq<int>, ub: seq<int>)
    requires Start(fr) && RefsOk(fr, r_tracked) && Distinct(lowSrc) && |t0| == |t1| == |fr.tracked|
    requires Waiting(fr, hit0, t0, unconfirmed) && Untouched(hit, t0, t1)
    requires forall k :: 0 <= k < |unconfirmed| ==> unconfirmed[k] !in r_tracked
    requires Associated(matches, ua, ub, |r_tracked|, |lowSrc|)
    requires Applied(fr, hit0, hit, r_tracked, lowSrc, Firsts(matches), Seconds(matches))
    requires forall i :: 0 <= i < |t1| ==> t1[i].track_id == fr.tracked[i].track_id == t0[i].track_id
    requires forall j :: 0 <= j < |cpSrc| ==> cpSrc[j] !in lowSrc && Unused(hit0, cpSrc[j])
    ensures Waiting(fr, hit, t1, unconfirmed)
    ensures forall j :: 0 <= j < |cpSrc| ==> Unused(hit, cpSrc[j])
  {
  }

  lemma AfterFirst<K>(fr: Frame<K>, hit: Hits, tracked: seq<Track<K>>, pool: seq<Ref>, unconfirmed: seq<Ref>,
                      r_tracked: seq<Ref>, highSrc: seq<int>, lowSrc: seq<int>, cpSrc: seq<int>,
                      matches: seq<(int, int)>, ua: seq<int>, ub: seq<int>)
    requires Start(fr) && Pools(fr, pool, unconfirmed) && Distinct(highSrc) && |tracked| == |fr.tracked|
    requires Associated(matches, ua, ub, |pool|, |highSrc|)
    requires Applied(fr, map[], hit, pool, highSrc, Firsts(matches), Seconds(matches))
    requires forall k :: 0 <= k < |pool| ==> (IdOf(fr, pool[k]) !in hit <==> k in ua)
    requires forall k :: 0 <= k < |ua| && pool[ua[k]].InTracked? ==> pool[ua[k]] in r_tracked
    requires forall i :: 0 <= i < |tracked| ==> tracked[i].track_id == fr.tracked[i].track_id
    requires forall i :: 0 <= i < |tracked| && tracked[i].track_id !in hit ==> tracked[i].state == Tracked
    requires |cpSrc| == |ub| && forall k :: 0 <= k < |ub| ==> cpSrc[k] == highSrc[ub[k]]
    requires forall j :: 0 <= j < |lowSrc| ==> lowSrc[j] !in highSrc
    ensures Waiting(fr, hit, tracked, unconfirmed)
    ensures DealtWith(fr, hit, tracked, r_tracked + unconfirmed) && Accounted(fr, hit, r_tracked + unconfirmed, {})
    ensures forall j :: 0 <= j < |lowSrc| ==> Unused(hit, lowSrc[j])
    ensures forall j :: 0 <= j < |cpSrc| ==> Unused(hit, cpSrc[j])
  {
  }

  /** The pairs of an association as they stand in the record of hits. */
  ghost predicate Recorded<K>(fr: Frame<K>, hit: Hits, refs: seq<Ref>, src: seq<int>, matches: seq<(int, int)>)
    requires RefsOk(fr, refs)
  {
    forall k :: 0 <= k < |matches| ==>
      && 0 <= matches[k].0 < |refs| && 0 <= matches[k].1 < |src|
      && IdOf(fr, refs[matches[k].0]) in hit && hit[IdOf(fr, refs[matches[k].0])] == src[matches[k].1]
  }

  lemma RecordNext<K>(fr: Frame<K>, hit: Hits, refs: seq<Ref>, src: seq<int>, matches: seq<(int, int)>, k: nat)
    requires RefsOk(fr, refs) && k < |matches| && Recorded(fr, hit, refs, src, matches[..k])
    requires 0 <= matches[k].0 < |refs| && 0 <= matches[k].1 < |src| && IdOf(fr, refs[matches[k].0]) !in hit
    ensures Recorded(fr, hit[IdOf(fr, refs[matches[k].0]) := src[matches[k].1]], refs, src, matches[..k + 1])
  {
  }

  /** A track after `multi_predict`: moved on if it was in the pool. */
  ghost function Predicted<K>(motion: Motion<K>, fr: Frame<K>, r: Ref, pooled: bool): Track<K>
    requires RefOk(fr, r)
  {
    if pooled then At(fr.tracked, fr.lost, r).Predict(motion) else At(fr.tracked, fr.lost, r)
  }

  /** Every entry of the tracked list was matched, is waiting, or has gone to one of the lists of leavers. */
  ghost predicate Accounted<K>(fr: Frame<K>, hit: Hits, waiting: seq<Ref>, gone: set<int>) {
    forall i :: 0 <= i < |fr.tracked| ==>
      fr.tracked[i].track_id in hit || InTracked(i) in waiting || fr.tracked[i].track_id in gone
  }

  lemma AccountedNext<K>(fr: Frame<K>, hit0: Hits, hit: Hits, refs: seq<Ref>, waiting: seq<Ref>, ua: seq<int>,
                         gone: set<int>, leavers: set<int>)
    requires RefsOk(fr, refs) && Within(ua, |refs|) && Extends(hit0, hit)
    requires Accounted(fr, hit0, refs + waiting, gone) || (waiting == [] && Accounted(fr, hit0, refs, gone))
    requires forall k :: 0 <= k < |refs| ==> (IdOf(fr, refs[k]) !in hit <==> k in ua)
    requires forall k :: 0 <= k < |ua| ==> IdOf(fr, refs[ua[k]]) in leavers
    ensures Accounted(fr, hit, waiting, gone + leavers)
  {
  }

  /** Every listed object was matched or is among those left over. */
  ghost predicate Served(hit: Hits, src: seq<int>, left: seq<int>) {
    forall j :: 0 <= j < |src| ==> !Unused(hit, src[j]) || src[j] in left
  }

  lemma MatchedIsUsed<K>(fr: Frame<K>, hit: Hits, refs: seq<Ref>, src: seq<int>,
                         matches: seq<(int, int)>, ua: seq<int>, ub: seq<int>, j: int)
    requires RefsOk(fr, refs) && Recorded(fr, hit, refs, src, matches) && Associated(matches, ua, ub, |refs|, |src|)
    requires 0 <= j < |src| && j !in ub
    ensures !Unused(hit, src[j])
  {
  }

  lemma ServedBy<K>(fr: Frame<K>, hit: Hits, refs: seq<Ref>, src: seq<int>,
                    matches: seq<(int, int)>, ua: seq<int>, ub: seq<int>, left: seq<int>)
    requires RefsOk(fr, refs) && Recorded(fr, hit, refs, src, matches) && Associated(matches, ua, ub, |refs|, |src|)
    requires |left| == |ub| && forall k :: 0 <= k < |ub| ==> left[k] == src[ub[k]]
    ensures Served(hit, src, left)
  {
    forall j | 0 <= j < |src|
      ensures !Unused(hit, src[j]) || src[j] in left
    {
      if j in ub {
        var k :| 0 <= k < |ub| && ub[k] == j;
        assert left[k] == src[j];
      } else {
        MatchedIsUsed(fr, hit, refs, src, matches, ua, ub, j);
      }
    }
  }

  lemma ExtendsUsed(hit: Hits, hit': Hits, src: seq<int>)
    requires Extends(hit, hit')
    ensures forall o :: !Unused(hit, o) ==> !Unused(hit', o)
  {
  }

  /** The tracks at the listed places carry the mark, and their identifiers are among `ids`. */
  ghost predicate MarkedAs<K>(fr: Frame<K>, mark: TrackState, refs: seq<Ref>, ua: seq<int>, tracked: seq<Track<K>>,
                              ids: set<int>)
    requires RefsOk(fr, refs) && |tracked| == |fr.tracked|
  {
    forall k :: 0 <= k < |ua| ==>
      && 0 <= ua[k] < |refs| && refs[ua[k]].InTracked?
      && tracked[refs[ua[k]].i].state == mark && IdOf(fr, refs[ua[k]]) in ids
  }

  lemma NobodyMarked<K>(fr: Frame<K>, hit: Hits, mark: TrackState, refs: seq<Ref>, waiting: seq<Ref>,
                        tracked: seq<Track<K>>, ids: set<int>)
    requires RefsOk(fr, refs) && RefsOk(fr, waiting) && |tracked| == |fr.tracked|
    ensures MarkedAs(fr, mark, refs, [], tracked, ids) && NewlyLost(fr, hit, [], waiting)
  {
  }

  lemma MarkedNext<K>(fr: Frame<K>, mark: TrackState, refs: seq<Ref>, ua: seq<int>, k: nat, tracked: seq<Track<K>>,
                      marked: seq<Track<K>>, copy: Track<K>)
    requires RefsOk(fr, refs) && |tracked| == |fr.tracked| && Within(ua, |refs|) && k < |ua| && refs[ua[k]].InTracked?
    requires MarkedAs(fr, mark, refs, ua[..k], tracked, Ids(marked))
    requires copy.state == mark && copy.track_id == IdOf(fr, refs[ua[k]])
    ensures MarkedAs(fr, mark, refs, ua[..k + 1], tracked[refs[ua[k]].i := copy], Ids(marked + [copy]))
  {
  }

  /** Tracks and detections that may be given to each other: none of them has been given away yet. */
  ghost predicate Entering<K>(fr: Frame<K>, hit0: Hits, refs: seq<Ref>, dets: seq<Track<K>>, src: seq<int>) {
    && RefsOk(fr, refs) && Detected(fr.objects, dets, src)
    && (forall k :: 0 <= k < |refs| ==> IdOf(fr, refs[k]) !in hit0)
    && (forall j :: 0 <= j < |src| ==> Unused(hit0, src[j]))
  }

  /** What the pairs of an association may be applied to. */
  ghost predicate Pairing<K>(fr: Frame<K>, hit0: Hits, refs: seq<Ref>, dets: seq<Track<K>>, src: seq<int>,
                             matches: seq<(int, int)>)
  {
    Entering(fr, hit0, refs, dets, src) && OneToOne(matches, |refs|, |dets|)
  }

  /** How far the pairs have been applied and recorded. */
  ghost predicate Progress<K>(fr: Frame<K>, hit0: Hits, hit: Hits, refs: seq<Ref>, src: seq<int>, done: seq<(int, int)>)
  {
    && RefsOk(fr, refs)
    && Applied(fr, hit0, hit, refs, src, Firsts(done), Seconds(done))
    && Recorded(fr, hit, refs, src, done)
  }

  lemma PairStillWaiting<K>(fr: Frame<K>, hit0: Hits, hit: Hits, before: seq<Track<K>>, tracked: seq<Track<K>>,
                            refs: seq<Ref>, dets: seq<Track<K>>, src: seq<int>, matches: seq<(int, int)>, k: nat)
    requires Start(fr) && Pairing(fr, hit0, refs, dets, src, matches) && k < |matches|
    requires Progress(fr, hit0, hit, refs, src, matches[..k])
    requires |tracked| == |fr.tracked| && forall i :: 0 <= i < |tracked| ==>
               tracked[i].track_id == fr.tracked[i].track_id
    requires Untouched(hit, before, tracked)
    requires forall l :: 0 <= l < |refs| && refs[l].InTracked? ==> before[refs[l].i].state == Tracked
    ensures refs[matches[k].0].InTracked? ==> tracked[refs[matches[k].0].i].state == Tracked
  {
  }
}
