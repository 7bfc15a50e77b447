/** What holds while one frame of the tracker is processed. */
module TrackerFrame {
  import opened Tracks

  datatype Rect = Rect(x: real, y: real, width: real, height: real)

  datatype Object = Object(rect: Rect, prob: real)

  /** The objects of a frame and the tracker's lists when the frame begins. */
  datatype Frame<K> = Frame(now: int, objects: seq<Object>, tracked: seq<Track<K>>, lost: seq<Track<K>>, count: int)

  /** The object each track was matched with in this frame, by track identifier. */
  type Hits = map<int, int>

  /** A place in one of the two lists, as the pointers of the tracker's pools. */
  datatype Ref = InTracked(i: nat) | InLost(i: nat)

  ghost predicate Known<K>(fr: Frame<K>, t: Track<K>) {
    && 1 <= t.track_id <= fr.count && 1 <= t.start_frame < fr.now && t.frame_id < fr.now
  }

  /** The lists as the previous frame left them. */
  ghost predicate Start<K>(fr: Frame<K>) {
    && 1 <= fr.now && 0 <= fr.count
    && (forall i :: 0 <= i < |fr.tracked| ==> Known(fr, fr.tracked[i]) && fr.tracked[i].state == Tracked)
    && (forall i :: 0 <= i < |fr.tracked| ==> fr.tracked[i].frame_id == fr.now - 1)
    && (forall i :: 0 <= i < |fr.lost| ==> Known(fr, fr.lost[i]) && fr.lost[i].state != Tracked)
    && DistinctIds(fr.tracked) && AscendingIds(fr.lost)
    && (forall i, j :: 0 <= i < |fr.tracked| && 0 <= j < |fr.lost| ==> fr.tracked[i].track_id != fr.lost[j].track_id)
  }

  /** No two tracks share an object. */
  ghost predicate HitsOk<K>(fr: Frame<K>, hit: Hits) {
    && (forall a :: a in hit ==> 0 <= hit[a] < |fr.objects|)
    && (forall a, b :: a in hit && b in hit && a != b ==> hit[a] != hit[b])
  }

  ghost predicate Unused(hit: Hits, o: int) {
    forall a :: a in hit ==> hit[a] != o
  }

  /** A track matched or born in this frame, with the score of its own object. */
  ghost predicate Good<K>(fr: Frame<K>, hit: Hits, t: Track<K>) {
    && t.state == Tracked && t.frame_id == fr.now && 1 <= t.start_frame <= fr.now
    && (if t.is_activated then t.start_frame < fr.now || fr.now == 1 else t.start_frame == fr.now > 1)
    && t.track_id in hit && 0 <= hit[t.track_id] < |fr.objects| && t.score == fr.objects[hit[t.track_id]].prob
  }

  ghost predicate AllGood<K>(fr: Frame<K>, hit: Hits, ts: seq<Track<K>>) {
    forall i :: 0 <= i < |ts| ==> Good(fr, hit, ts[i])
  }

  /** What became of the list entry `t0` so far. */
  ghost predicate Carried<K>(fr: Frame<K>, hit: Hits, t: Track<K>, t0: Track<K>) {
    && t.track_id == t0.track_id && t.start_frame == t0.start_frame
    && if t.track_id in hit then Good(fr, hit, t)
       else t.frame_id == t0.frame_id && t.is_activated == t0.is_activated
  }

  ghost predicate Midway<K>(fr: Frame<K>, hit: Hits, tracked: seq<Track<K>>, lost: seq<Track<K>>) {
    && HitsOk(fr, hit) && |tracked| == |fr.tracked| && |lost| == |fr.lost|
    && (forall i :: 0 <= i < |tracked| ==> Carried(fr, hit, tracked[i], fr.tracked[i]))
    && (forall i :: 0 <= i < |lost| ==> Carried(fr, hit, lost[i], fr.lost[i]))
    && (forall i :: 0 <= i < |lost| && lost[i].track_id !in hit ==> lost[i].state != Tracked)
  }

  ghost predicate RefOk<K>(fr: Frame<K>, r: Ref) {
    match r case InTracked(i) => i < |fr.tracked| case InLost(i) => i < |fr.lost|
  }

  ghost function IdOf<K>(fr: Frame<K>, r: Ref): int
    requires RefOk(fr, r)
  {
    match r case InTracked(i) => fr.tracked[i].track_id case InLost(i) => fr.lost[i].track_id
  }

  lemma IdsTellRefsApart<K>(fr: Frame<K>, r: Ref, s: Ref)
    requires Start(fr) && RefOk(fr, r) && RefOk(fr, s)
    ensures IdOf(fr, r) == IdOf(fr, s) <==> r == s
    ensures 1 <= IdOf(fr, r) <= fr.count
  {
  }

  function At<K>(tracked: seq<Track<K>>, lost: seq<Track<K>>, r: Ref): Track<K>
    requires match r case InTracked(i) => i < |tracked| case InLost(i) => i < |lost|
  {
    match r case InTracked(i) => tracked[i] case InLost(i) => lost[i]
  }

  /** Recording one more hit leaves all other tracks as they were. */
  lemma HitKeeps<K>(fr: Frame<K>, hit: Hits, id: int, o: int)
    requires HitsOk(fr, hit) && id !in hit && Unused(hit, o) && 0 <= o < |fr.objects|
    ensures HitsOk(fr, hit[id := o])
    ensures forall t :: Good(fr, hit, t) ==> Good(fr, hit[id := o], t)
    ensures forall t, t0 :: Carried(fr, hit, t, t0) && t.track_id != id ==> Carried(fr, hit[id := o], t, t0)
    ensures forall p :: Unused(hit, p) && p != o ==> Unused(hit[id := o], p)
  {
  }
}
