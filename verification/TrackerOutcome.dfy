/** What the steps of a frame amount to: the fate of each track as a function of the object it was given. */
module TrackerOutcome {
  import opened Permutations
  import opened Tracks
  import opened Association
  import opened TrackerFrame
  import opened TrackerSteps
  import opened TrackerEffects
  import opened TrackerStages
  import LA = LinearAssignment

  /** A track after the three associations. Confirmed and lost tracks were moved on first. With an object the
      track is updated by that object's detection, or re-activated if it was lost; without one a confirmed
      track becomes lost, an unconfirmed one removed, and a lost one stays as it is. */
  ghost function Outcome<K>(motion: Motion<K>, fr: Frame<K>, hit: Hits, r: Ref): Track<K>
    requires RefOk(fr, r) && (IdOf(fr, r) in hit ==> 0 <= hit[IdOf(fr, r)] < |fr.objects|)
  {
    var t := Predicted(motion, fr, r, Pooled(fr, r));
    if IdOf(fr, r) in hit then Revised(motion, t, Detection(fr.objects[hit[IdOf(fr, r)]]), fr.now, !Pooled(fr, r))
    else if r.InLost? then t
    else t.(state := if Pooled(fr, r) then Lost else Removed)
  }

  /** The applied pairs, seen from one track. */
  lemma PairsAt<K>(motion: Motion<K>, fr: Frame<K>, refs: seq<Ref>, dets: seq<Track<K>>, src: seq<int>,
                   pairs: seq<(int, int)>, hit0: Hits, hit: Hits, only_update: bool, before: Lists<K>,
                   after: Lists<K>, r: Ref)
    requires Shaped(fr, before) && AllHeld(before, refs) && OneToOne(pairs, |refs|, |dets|)
    requires Detected(fr.objects, dets, src) && Progress(fr, hit0, hit, refs, src, pairs)
    requires Effect(motion, fr.now, only_update, refs, dets, pairs, before, after) && RefOk(fr, r)
    requires r in refs ==> IdOf(fr, r) !in hit0
    ensures Shaped(fr, after) && Extends(hit0, hit)
    ensures IdOf(fr, r) in hit && r in refs ==>
              && 0 <= hit[IdOf(fr, r)] < |fr.objects|
              && after.Entry(r) == Revised(motion, before.Entry(r), Detection(fr.objects[hit[IdOf(fr, r)]]), fr.now,
                                           only_update)
    ensures IdOf(fr, r) !in hit || r !in refs ==> after.Entry(r) == before.Entry(r)
    ensures r !in refs ==> (IdOf(fr, r) in hit <==> IdOf(fr, r) in hit0)
  {
    hide Revised, At, Detection;
    if l :| 0 <= l < |pairs| && refs[pairs[l].0] == r {
      assert hit[IdOf(fr, r)] == src[pairs[l].1];
    } else {
      assert !Taken(refs, Firsts(pairs), r);
    }
  }

  /** One stage, seen from one track. */
  lemma StageAt<K>(motion: Motion<K>, fr: Frame<K>, st: Stage<K>, thresh: real, hit0: Hits, only_update: bool,
                   activated0: seq<Track<K>>, refind0: seq<Track<K>>, r: Ref)
    requires Start(fr) && Shaped(fr, st.before) && Chosen(fr, st, thresh, hit0) && RefOk(fr, r)
    requires Performed(motion, fr, st, only_update, activated0, refind0)
    requires r in st.refs ==> IdOf(fr, r) !in hit0
    ensures Shaped(fr, st.revised) && Extends(hit0, st.after)
    ensures r !in st.refs ==>
              st.revised.Entry(r) == st.before.Entry(r) && (IdOf(fr, r) in st.after <==> IdOf(fr, r) in hit0)
    ensures r in st.refs && IdOf(fr, r) !in st.after ==> st.revised.Entry(r) == st.before.Entry(r)
    ensures r in st.refs && IdOf(fr, r) in st.after ==>
              && 0 <= st.after[IdOf(fr, r)] < |fr.objects|
              && st.revised.Entry(r) == Revised(motion, st.before.Entry(r),
                                                Detection(fr.objects[st.after[IdOf(fr, r)]]), fr.now, only_update)
  {
    hide Revised, Optimal, Start, At, BoxesIn, BoxesOf, Detection, Effect, Detected, Progress, Copies, OneToOne;
    PairsAt(motion, fr, st.refs, st.dets, st.src, LA.Pairs(st.m), hit0, st.after, only_update, st.before,
            st.revised, r);
  }

  /** Whoever the stage left over carries the mark afterwards, and nobody else changed. */
  lemma MarkedAt<K>(fr: Frame<K>, st: Stage<K>, thresh: real, hit0: Hits, mark: TrackState, after: seq<Track<K>>,
                    copies: seq<Track<K>>, i: nat)
    requires Start(fr) && Chosen(fr, st, thresh, hit0) && forall k :: 0 <= k < |st.refs| ==>
               IdOf(fr, st.refs[k]) !in hit0
    requires Marked(mark, st.refs, st.ua, st.revised.tracked, after, copies) && i < |fr.tracked| == |st.revised.tracked|
    ensures |after| == |fr.tracked|
    ensures if InTracked(i) in st.refs && fr.tracked[i].track_id !in st.after
            then after[i] == st.revised.tracked[i].(state := mark)
            else after[i] == st.revised.tracked[i]
  {
    hide Optimal, Start, Detected;
    var r := InTracked(i);
    AppliedRows(fr, hit0, st.after, st.refs, st.src, LA.Pairs(st.m), st.ua, st.ub);
    if r in st.refs && IdOf(fr, r) !in st.after {
      var k :| 0 <= k < |st.refs| && st.refs[k] == r;
      var l :| 0 <= l < |st.ua| && st.ua[l] == k;
      assert st.refs[st.ua[l]] == r;
    } else {
      assert Unlisted(st.refs, st.ua, r);
    }
  }

  lemma {:induction false} BornHitsExtend<K>(motion: Motion<K>, hit0: Hits, dets: seq<Track<K>>, src: seq<int>,
                                             at: seq<int>, count: int, now: int)
    requires |src| == |dets| && Within(at, |dets|)
    ensures forall a :: a <= count ==>
              var hit := BornHits(motion, hit0, dets, src, at, count, now);
              (a in hit <==> a in hit0) && (a in hit0 ==> hit[a] == hit0[a])
  {
    if at != [] {
      BornHitsExtend(motion, hit0, dets, src, at[..|at| - 1], count, now);
    }
  }

  lemma ShapesKept<K>(motion: Motion<K>, fr: Frame<K>, steps: Steps<K>, hit: Hits, count: int)
    requires Performs(motion, fr, steps, hit, count)
    ensures Shaped(fr, steps.s2.before) && Shaped(fr, steps.s3.before) && Shaped(fr, steps.settled)
    ensures Shaped(fr, steps.s1.before) && Shaped(fr, steps.s2.revised)
    ensures Shaped(fr, steps.s3.revised)
  {
    hide Revised, Chosen, Predicted, Newborns;
  }

  /** The places a stage is given have no object yet. */
  lemma PlacesFree<K>(motion: Motion<K>, fr: Frame<K>, steps: Steps<K>, hit: Hits, count: int)
    requires Start(fr) && Performs(motion, fr, steps, hit, count)
    ensures forall k :: 0 <= k < |steps.s2.refs| ==>
              RefOk(fr, steps.s2.refs[k]) && IdOf(fr, steps.s2.refs[k]) !in steps.s1.after
    ensures forall k :: 0 <= k < |steps.s3.refs| ==>
              RefOk(fr, steps.s3.refs[k]) && IdOf(fr, steps.s3.refs[k]) !in steps.s2.after
  {
    hide Revised, Optimal, Performed, Marked, Predicted, Newborns, Start, Delivered, AllPredicted;
    var s1, s2, s3 := steps.s1, steps.s2, steps.s3;
    ShapesKept(motion, fr, steps, hit, count);
    forall k | 0 <= k < |s3.refs|
      ensures RefOk(fr, s3.refs[k]) && IdOf(fr, s3.refs[k]) !in s2.after
    {
      var r := s3.refs[k];
      assert r in s3.refs && r !in s1.refs && r !in s2.refs;
      StageAt(motion, fr, s1, MATCH_THRESH, map[], false, [], [], r);
      StageAt(motion, fr, s2, SECOND_THRESH, s1.after, false, s1.activated, s1.refind, r);
    }
  }

  /** After the births the lists are still as the three associations left them: every track has met its fate. */
  lemma EveryOutcome<K>(motion: Motion<K>, fr: Frame<K>, steps: Steps<K>, hit: Hits, count: int, r: Ref)
    requires Start(fr) && Performs(motion, fr, steps, hit, count) && RefOk(fr, r)
    ensures IdOf(fr, r) in hit ==> 0 <= hit[IdOf(fr, r)] < |fr.objects|
    ensures Shaped(fr, steps.settled) && steps.settled.Entry(r) == Outcome(motion, fr, hit, r)
    ensures Shaped(fr, steps.s1.revised) &&
            (IdOf(fr, r) in steps.s1.after ==> steps.s1.revised.Entry(r) == steps.settled.Entry(r))
    ensures Shaped(fr, steps.s2.revised) &&
            (IdOf(fr, r) in steps.s2.after ==> steps.s2.revised.Entry(r) == steps.settled.Entry(r))
    ensures Shaped(fr, steps.s3.revised) &&
            (IdOf(fr, r) in steps.s3.after ==> steps.s3.revised.Entry(r) == steps.settled.Entry(r))
    ensures IdOf(fr, r) in hit <==> IdOf(fr, r) in steps.s3.after
    ensures IdOf(fr, r) in steps.s1.after ==> IdOf(fr, r) in steps.s2.after
    ensures IdOf(fr, r) in steps.s2.after ==> IdOf(fr, r) in steps.s3.after
    ensures IdOf(fr, r) in hit && r.InLost? ==> r in steps.s1.refs && IdOf(fr, r) in steps.s1.after
    ensures Pooled(fr, r) ==>
              && Shaped(fr, steps.s3.before) && steps.s3.before.Entry(r) == steps.settled.Entry(r)
              && (IdOf(fr, r) in hit <==> IdOf(fr, r) in steps.s2.after)
  {
    hide Revised, Chosen, Performed, Marked, Predicted, Newborns, Start;
    var s1, s2, s3 := steps.s1, steps.s2, steps.s3;
    BornHitsExtend(motion, s3.after, s3.dets, s3.src, s3.ub, fr.count, fr.now);
    IdsTellRefsApart(fr, r, r);
    ShapesKept(motion, fr, steps, hit, count);
    PlacesFree(motion, fr, steps, hit, count);
    StageAt(motion, fr, s1, MATCH_THRESH, map[], false, [], [], r);
    StageAt(motion, fr, s2, SECOND_THRESH, s1.after, false, s1.activated, s1.refind, r);
    StageAt(motion, fr, s3, THIRD_THRESH, s2.after, true, s2.activated, s2.refind, r);
    if r.InTracked? {
      MarkedAt(fr, s2, SECOND_THRESH, s1.after, Lost, s3.before.tracked, steps.lost_stracks, r.i);
      MarkedAt(fr, s3, THIRD_THRESH, s2.after, Removed, steps.settled.tracked, steps.removed_stracks, r.i);
    }
  }

  // ---- Copies ----

  lemma {:induction false} CopiedEntries<K>(ls: Lists<K>, refs: seq<Ref>, done: seq<(int, int)>, refound: bool)
    requires forall k :: 0 <= k < |refs| ==> ls.Has(refs[k])
    requires forall l :: 0 <= l < |done| ==> 0 <= done[l].0 < |refs|
    ensures forall t :: t in Copies(ls, refs, done, refound) ==>
              exists l :: 0 <= l < |done| && t == ls.Entry(refs[done[l].0])
    ensures forall l :: 0 <= l < |done| && refs[done[l].0].InLost? == refound ==>
              ls.Entry(refs[done[l].0]) in Copies(ls, refs, done, refound)
  {
    hide At;
    if done != [] {
      var front := done[..|done| - 1];
      CopiedEntries(ls, refs, front, refound);
      assert forall l :: 0 <= l < |front| ==> front[l] == done[l];
    }
  }

  /** The entry of a track that has got its object. */
  ghost predicate CopyOf<K>(fr: Frame<K>, ls: Lists<K>, hit: Hits, t: Track<K>)
    requires Shaped(fr, ls)
  {
    exists r :: RefOk(fr, r) && IdOf(fr, r) in hit && t == ls.Entry(r)
  }

  ghost predicate RefoundIn<K>(fr: Frame<K>, st: Stage<K>, hit0: Hits) {
    && Shaped(fr, st.revised)
    && forall r :: RefOk(fr, r) && r.InLost? && r in st.refs && IdOf(fr, r) in st.after && IdOf(fr, r) !in hit0 ==>
         st.revised.Entry(r) in st.refind
  }

  /** The copies a stage adds are entries of tracks it matched; refound tracks are all among them. */
  lemma StageCopies<K>(motion: Motion<K>, fr: Frame<K>, st: Stage<K>, thresh: real, hit0: Hits, only_update: bool,
                       activated0: seq<Track<K>>, refind0: seq<Track<K>>)
    requires Shaped(fr, st.before) && Shaped(fr, st.revised) && Chosen(fr, st, thresh, hit0)
    requires Performed(motion, fr, st, only_update, activated0, refind0)
    ensures forall t :: t in st.activated ==> t in activated0 || CopyOf(fr, st.revised, st.after, t)
    ensures forall t :: t in st.refind ==> t in refind0 || CopyOf(fr, st.revised, st.after, t)
    ensures RefoundIn(fr, st, hit0)
    ensures refind0 <= st.refind
  {
    hide Revised, Optimal, Start, Effect, Detected, Copies, At, BoxesIn, BoxesOf;
    var pairs := LA.Pairs(st.m);
    CopiedEntries(st.revised, st.refs, pairs, false);
    CopiedEntries(st.revised, st.refs, pairs, true);
    forall r | RefOk(fr, r) && r.InLost? && r in st.refs && IdOf(fr, r) in st.after && IdOf(fr, r) !in hit0
      ensures st.revised.Entry(r) in st.refind
    {
      assert Taken(st.refs, Firsts(pairs), r);
      var k :| 0 <= k < |st.refs| && k in Firsts(pairs) && st.refs[k] == r;
      var l :| 0 <= l < |pairs| && pairs[l].0 == k;
    }
  }

  /** The collected tracks are entries that have got an object, all refound ones among them. */
  ghost predicate Collected<K>(fr: Frame<K>, ls: Lists<K>, hit: Hits, activated: seq<Track<K>>, refind: seq<Track<K>>) {
    && Shaped(fr, ls)
    && (forall t :: t in activated ==> CopyOf(fr, ls, hit, t)) && (forall t :: t in refind ==> CopyOf(fr, ls, hit, t))
    && (forall r :: RefOk(fr, r) && r.InLost? && IdOf(fr, r) in hit ==> ls.Entry(r) in refind)
  }

  /** A copy of a matched track is still what the lists hold when the births are over. */
  lemma CopiesSettled<K>(motion: Motion<K>, fr: Frame<K>, steps: Steps<K>, hit: Hits, count: int)
    requires Start(fr) && Performs(motion, fr, steps, hit, count)
    ensures Collected(fr, steps.settled, hit, steps.s3.activated, steps.s3.refind)
  {
    hide Revised, Chosen, Performed, Marked, Predicted, Start, Outcome, Delivered;
    var s1, s2, s3 := steps.s1, steps.s2, steps.s3;
    ShapesKept(motion, fr, steps, hit, count);
    StageCopies(motion, fr, s1, MATCH_THRESH, map[], false, [], []);
    StageCopies(motion, fr, s2, SECOND_THRESH, s1.after, false, s1.activated, s1.refind);
    StageCopies(motion, fr, s3, THIRD_THRESH, s2.after, true, s2.activated, s2.refind);
    forall r | RefOk(fr, r)
      ensures IdOf(fr, r) in s1.after ==> IdOf(fr, r) in hit && s1.revised.Entry(r) == steps.settled.Entry(r)
      ensures IdOf(fr, r) in s2.after ==> IdOf(fr, r) in hit && s2.revised.Entry(r) == steps.settled.Entry(r)
      ensures IdOf(fr, r) in s3.after ==> IdOf(fr, r) in hit && s3.revised.Entry(r) == steps.settled.Entry(r)
      ensures IdOf(fr, r) in hit && r.InLost? ==> r in s1.refs && IdOf(fr, r) in s1.after
    {
      EveryOutcome(motion, fr, steps, hit, count, r);
    }
  }

  /** A newborn track: made from the detection of its own confident object, with a new identifier. */
  ghost predicate BornFrom<K>(motion: Motion<K>, objects: seq<Object>, now: int, count: int, hit: Hits, t: Track<K>) {
    && t.track_id > count && t.track_id in hit && Confident(objects, hit[t.track_id])
    && t == Detection(objects[hit[t.track_id]]).Activate(motion, t.track_id, now)
  }

  lemma BornLater<K>(motion: Motion<K>, objects: seq<Object>, now: int, count: int, hit: Hits, hit': Hits,
                     born: seq<Track<K>>, id: int)
    requires forall t :: t in born ==> BornFrom(motion, objects, now, count, hit, t) && t.track_id < id
    requires forall a :: a in hit && a < id ==> a in hit' && hit'[a] == hit[a]
    ensures forall t :: t in born ==> BornFrom(motion, objects, now, count, hit', t) && t.track_id < id
  {
    hide Detection;
  }

  lemma JustBorn<K>(motion: Motion<K>, objects: seq<Object>, hit: Hits, dets: seq<Track<K>>, src: seq<int>, j: int,
                    id: int, count: int, now: int)
    requires Detected(objects, dets, src) && 0 <= j < |dets| && dets[j].score >= HIGH_THRESH && id > count
    ensures |src| == |dets|
    ensures BornFrom(motion, objects, now, count, hit[id := src[j]], dets[j].Activate(motion, id, now))
  {
  }

  lemma {:induction false} EveryBirth<K>(motion: Motion<K>, objects: seq<Object>, hit0: Hits, dets: seq<Track<K>>,
                                         src: seq<int>, at: seq<int>, count: int, now: int)
    requires |src| == |dets| && Detected(objects, dets, src) && Within(at, |dets|)
    ensures forall t :: t in Newborns(motion, dets, at, count, now) ==>
              && BornFrom(motion, objects, now, count, BornHits(motion, hit0, dets, src, at, count, now), t)
              && t.track_id <= count + |Newborns(motion, dets, at, count, now)|
    ensures forall a :: a in BornHits(motion, hit0, dets, src, at, count, now) ==>
              a in hit0 || a in Ids(Newborns(motion, dets, at, count, now))
  {
    hide BornFrom, Detected;
    if at != [] {
      var front, last := at[..|at| - 1], at[|at| - 1];
      EveryBirth(motion, objects, hit0, dets, src, front, count, now);
      var born := Newborns(motion, dets, front, count, now);
      if dets[last].score >= HIGH_THRESH {
        var t := dets[last].Activate(motion, count + |born| + 1, now);
        var hit := BornHits(motion, hit0, dets, src, front, count, now);
        IdsAppend(born, t);
        BornLater(motion, objects, now, count, hit, hit[t.track_id := src[last]], born, t.track_id);
        JustBorn(motion, objects, hit, dets, src, last, t.track_id, count, now);
      }
    }
  }

  // ---- The fate of every track ----

  /** A member of the next tracked list: a track of the last frame that got an object, or a newborn one. */
  ghost predicate TrackedFate<K>(motion: Motion<K>, fr: Frame<K>, hit: Hits, t: Track<K>) {
    || BornFrom(motion, fr.objects, fr.now, fr.count, hit, t)
    || exists r :: Fated(motion, fr, hit, r, t) && IdOf(fr, r) in hit
  }

  ghost predicate Fated<K>(motion: Motion<K>, fr: Frame<K>, hit: Hits, r: Ref, t: Track<K>) {
    && RefOk(fr, r) && (IdOf(fr, r) in hit ==> 0 <= hit[IdOf(fr, r)] < |fr.objects|)
    && t.track_id == IdOf(fr, r) && t == Outcome(motion, fr, hit, r)
  }

  /** A member of the next lost list: a lost track that got no object, aged, or a confirmed one now lost. */
  ghost predicate LostFate<K>(motion: Motion<K>, fr: Frame<K>, hit: Hits, limit: int, t: Track<K>) {
    exists r ::
      && RefOk(fr, r) && IdOf(fr, r) == t.track_id && IdOf(fr, r) !in hit && Pooled(fr, r)
      && t == if r.InLost? then Aged(Outcome(motion, fr, hit, r), fr.now, limit) else Outcome(motion, fr, hit, r)
  }

  /** The next lists, before duplicates are dropped: tracked are exactly the tracks with an object, lost exactly
      the confirmed and lost ones without, unless they were removed in an earlier frame. */
  ghost predicate Fates<K>(motion: Motion<K>, fr: Frame<K>, hit: Hits, limit: int, removed0: set<int>,
                           all_tracked: seq<Track<K>>, all_lost: seq<Track<K>>) {
    && (forall a :: a in hit <==> a in Ids(all_tracked))
    && (forall t :: t in all_tracked ==> TrackedFate(motion, fr, hit, t))
    && (forall r :: RefOk(fr, r) ==>
          (IdOf(fr, r) in Ids(all_lost) <==> Pooled(fr, r) && IdOf(fr, r) !in hit && IdOf(fr, r) !in removed0))
    && (forall t :: t in all_lost ==> LostFate(motion, fr, hit, limit, t))
  }

  lemma OutcomeKind<K>(motion: Motion<K>, fr: Frame<K>, hit: Hits, r: Ref)
    requires Start(fr) && RefOk(fr, r) && (IdOf(fr, r) in hit ==> 0 <= hit[IdOf(fr, r)] < |fr.objects|)
    ensures var t := Outcome(motion, fr, hit, r);
            && t.track_id == IdOf(fr, r) && (t.state == Tracked <==> IdOf(fr, r) in hit)
  {
  }

  /** The lists after the associations, entry by entry. */
  ghost predicate Settled<K>(motion: Motion<K>, fr: Frame<K>, hit: Hits, ls: Lists<K>) {
    Shaped(fr, ls) && forall r :: RefOk(fr, r) ==> Fated(motion, fr, hit, r, ls.Entry(r))
  }

  lemma AllSettled<K>(motion: Motion<K>, fr: Frame<K>, steps: Steps<K>, hit: Hits, count: int)
    requires Start(fr) && Performs(motion, fr, steps, hit, count)
    ensures Settled(motion, fr, hit, steps.settled)
  {
    hide Performs, Outcome, Start, At;
    ShapesKept(motion, fr, steps, hit, count);
    forall r | RefOk(fr, r)
      ensures Fated(motion, fr, hit, r, steps.settled.Entry(r))
    {
      EveryOutcome(motion, fr, steps, hit, count, r);
      OutcomeKind(motion, fr, hit, r);
    }
  }

  lemma ThirdDetections<K>(motion: Motion<K>, fr: Frame<K>, steps: Steps<K>, hit: Hits, count: int)
    requires Performs(motion, fr, steps, hit, count)
    ensures Detected(fr.objects, steps.s3.dets, steps.s3.src)
    ensures forall a :: a in steps.s3.after ==> Continuing(fr, a)
  {
    hide Performed, Marked, Optimal, Delivered, StillWanted, Unconfirmed, LeftBy, SplitOff, AllPredicted, Detected;
  }

  lemma BirthsOf<K>(motion: Motion<K>, fr: Frame<K>, steps: Steps<K>, hit: Hits, count: int)
    requires Performs(motion, fr, steps, hit, count)
    ensures forall t :: t in steps.born ==> BornFrom(motion, fr.objects, fr.now, fr.count, hit, t)
    ensures forall a :: a in hit ==> a in steps.s3.after || a in Ids(steps.born)
  {
    hide FirstStage, SecondStage, ThirdStage, BornFrom;
    ThirdDetections(motion, fr, steps, hit, count);
    var s3 := steps.s3;
    EveryBirth(motion, fr.objects, s3.after, s3.dets, s3.src, s3.ub, fr.count, fr.now);
  }

  lemma TrackedFates<K>(motion: Motion<K>, fr: Frame<K>, hit: Hits, ls: Lists<K>, activated: seq<Track<K>>,
                        refind: seq<Track<K>>, born: seq<Track<K>>, all: seq<Track<K>>)
    requires Start(fr) && Settled(motion, fr, hit, ls) && Collected(fr, ls, hit, activated, refind)
    requires forall t :: t in born ==> BornFrom(motion, fr.objects, fr.now, fr.count, hit, t)
    requires all == Joint(Joint(StillThere(ls.tracked), activated + born), refind)
    ensures forall t :: t in all ==> TrackedFate(motion, fr, hit, t)
  {
    hide Outcome, BornFrom, Start, Joint, StillThere;
    StillThereExactly(ls.tracked);
    JointContents(StillThere(ls.tracked), activated + born);
    JointContents(Joint(StillThere(ls.tracked), activated + born), refind);
    forall t | t in all
      ensures TrackedFate(motion, fr, hit, t)
    {
      if t in StillThere(ls.tracked) {
        var i :| 0 <= i < |ls.tracked| && ls.tracked[i] == t;
        assert Fated(motion, fr, hit, InTracked(i), ls.Entry(InTracked(i)));
        OutcomeKind(motion, fr, hit, InTracked(i));
      } else if t in activated || t in refind {
        var r :| RefOk(fr, r) && IdOf(fr, r) in hit && t == ls.Entry(r);
        assert Fated(motion, fr, hit, r, t);
      }
    }
  }

  lemma TrackedIds<K>(motion: Motion<K>, fr: Frame<K>, hit: Hits, ls: Lists<K>, activated: seq<Track<K>>,
                      refind: seq<Track<K>>, born: seq<Track<K>>, all: seq<Track<K>>)
    requires Start(fr) && Settled(motion, fr, hit, ls) && Collected(fr, ls, hit, activated, refind)
    requires forall a :: a in hit ==> Continuing(fr, a) || a in Ids(born)
    requires all == Joint(Joint(StillThere(ls.tracked), activated + born), refind)
    ensures forall a :: a in hit ==> a in Ids(all)
  {
    hide Outcome, Start, Joint, StillThere;
    StillThereExactly(ls.tracked);
    JointIds(StillThere(ls.tracked), activated + born);
    JointIds(Joint(StillThere(ls.tracked), activated + born), refind);
    IdsConcat(activated, born);
    IdsOf(StillThere(ls.tracked));
    IdsOf(refind);
    forall a | a in hit && Continuing(fr, a)
      ensures a in Ids(all)
    {
      var r :| RefOk(fr, r) && IdOf(fr, r) == a;
      assert Fated(motion, fr, hit, r, ls.Entry(r));
      OutcomeKind(motion, fr, hit, r);
      match r {
        case InTracked(i) => assert ls.tracked[i] in StillThere(ls.tracked);
        case InLost(i) => assert ls.Entry(r) in refind;
      }
    }
  }

  /** The copies of tracks lost in this frame: entries of exactly the confirmed tracks without an object. */
  ghost predicate LostNow<K>(fr: Frame<K>, ls: Lists<K>, hit: Hits, lost_stracks: seq<Track<K>>) {
    && Shaped(fr, ls)
    && (forall t :: t in lost_stracks ==>
          exists i ::
            && 0 <= i < |fr.tracked| && t == ls.tracked[i]
            && fr.tracked[i].is_activated && fr.tracked[i].track_id !in hit)
    && (forall i :: 0 <= i < |fr.tracked| && fr.tracked[i].is_activated && fr.tracked[i].track_id !in hit ==>
          ls.tracked[i] in lost_stracks)
  }

  lemma RowsLeft<K>(fr: Frame<K>, st: Stage<K>, thresh: real, hit0: Hits)
    requires Start(fr) && Chosen(fr, st, thresh, hit0)
    requires forall k :: 0 <= k < |st.refs| ==> RefOk(fr, st.refs[k]) && IdOf(fr, st.refs[k]) !in hit0
    ensures forall k :: 0 <= k < |st.refs| ==> (IdOf(fr, st.refs[k]) !in st.after <==> k in st.ua)
  {
    hide Optimal, Start, Detected;
    AppliedRows(fr, hit0, st.after, st.refs, st.src, LA.Pairs(st.m), st.ua, st.ub);
  }

  lemma LostCopies<K>(motion: Motion<K>, fr: Frame<K>, steps: Steps<K>, hit: Hits, count: int)
    requires Start(fr) && Performs(motion, fr, steps, hit, count)
    ensures LostNow(fr, steps.settled, hit, steps.lost_stracks)
  {
    hide Performed, Start, Outcome, Delivered, Chosen, FirstStage, ThirdStage;
    var s2, before, settled := steps.s2, steps.s3.before, steps.settled;
    ShapesKept(motion, fr, steps, hit, count);
    PlacesFree(motion, fr, steps, hit, count);
    RowsLeft(fr, s2, SECOND_THRESH, steps.s1.after);
    forall t | t in steps.lost_stracks
      ensures exists i ::
                && 0 <= i < |fr.tracked| && t == settled.tracked[i]
                && fr.tracked[i].is_activated && fr.tracked[i].track_id !in hit
    {
      var k :| 0 <= k < |s2.ua| && steps.lost_stracks[k] == t;
      var r := s2.refs[s2.ua[k]];
      assert r in s2.refs && t == before.tracked[r.i];
      EveryOutcome(motion, fr, steps, hit, count, r);
      assert t == settled.tracked[r.i];
    }
    forall i | 0 <= i < |fr.tracked| && fr.tracked[i].is_activated && fr.tracked[i].track_id !in hit
      ensures settled.tracked[i] in steps.lost_stracks
    {
      var r := InTracked(i);
      EveryOutcome(motion, fr, steps, hit, count, r);
      assert r in s2.refs;
      var k :| 0 <= k < |s2.refs| && s2.refs[k] == r;
      var l :| 0 <= l < |s2.ua| && s2.ua[l] == k;
      assert steps.lost_stracks[l] == before.tracked[i];
    }
  }

  /** The identifier of a confirmed track that got no object. */
  ghost predicate Unserved<K>(fr: Frame<K>, hit: Hits, a: int) {
    exists i :: 0 <= i < |fr.tracked| && fr.tracked[i].track_id == a && fr.tracked[i].is_activated && a !in hit
  }

  lemma NowIds<K>(motion: Motion<K>, fr: Frame<K>, hit: Hits, ls: Lists<K>, lost_stracks: seq<Track<K>>)
    requires Settled(motion, fr, hit, ls) && LostNow(fr, ls, hit, lost_stracks)
    ensures forall a :: a in Ids(lost_stracks) <==> Unserved(fr, hit, a)
  {
    hide Outcome, Ids;
    IdsOf(lost_stracks);
    forall i | 0 <= i < |ls.tracked|
      ensures ls.tracked[i].track_id == fr.tracked[i].track_id
    {
      assert Fated(motion, fr, hit, InTracked(i), ls.Entry(InTracked(i)));
    }
    forall a | a in Ids(lost_stracks)
      ensures Unserved(fr, hit, a)
    {
      var k := IdAt(lost_stracks, a);
      assert lost_stracks[k] in lost_stracks;
    }
  }

  lemma LostIds<K>(motion: Motion<K>, fr: Frame<K>, hit: Hits, ls: Lists<K>, lost_stracks: seq<Track<K>>,
                   matched: set<int>, removed0: set<int>, all_lost: seq<Track<K>>, r: Ref)
    requires Start(fr) && Settled(motion, fr, hit, ls) && LostNow(fr, ls, hit, lost_stracks) && RefOk(fr, r)
    requires IdOf(fr, r) in hit <==> IdOf(fr, r) in matched
    requires Ids(all_lost) == Ids(ls.lost) - matched + Ids(lost_stracks) - removed0
    ensures IdOf(fr, r) in Ids(all_lost) <==> Pooled(fr, r) && IdOf(fr, r) !in hit && IdOf(fr, r) !in removed0
  {
    hide Outcome, Ids, LostNow;
    IdsOf(ls.lost);
    NowIds(motion, fr, hit, ls, lost_stracks);
    forall j | 0 <= j < |ls.lost|
      ensures ls.lost[j].track_id == fr.lost[j].track_id
    {
      assert Fated(motion, fr, hit, InLost(j), ls.Entry(InLost(j)));
    }
  }

  lemma LostFateOf<K>(motion: Motion<K>, fr: Frame<K>, steps: Steps<K>, hit: Hits, limit: int, t: Track<K>)
    requires Settled(motion, fr, hit, steps.settled) && LostNow(fr, steps.settled, hit, steps.lost_stracks)
    requires LeftLate(steps, fr.now, limit, t) && t.track_id !in hit
    ensures LostFate(motion, fr, hit, limit, t)
  {
    hide Outcome;
    var ls := steps.settled;
    if t in steps.lost_stracks {
      var i :| 0 <= i < |fr.tracked| && t == ls.tracked[i] && fr.tracked[i].is_activated &&
          fr.tracked[i].track_id !in hit;
      assert Fated(motion, fr, hit, InTracked(i), ls.Entry(InTracked(i)));
    } else {
      var j :| 0 <= j < |ls.lost| && t == Aged(ls.lost[j], fr.now, limit);
      assert Fated(motion, fr, hit, InLost(j), ls.Entry(InLost(j)));
    }
  }

  /** The steps of a frame give every track the fate its object decides. */
  lemma FrameFates<K>(motion: Motion<K>, fr: Frame<K>, steps: Steps<K>, hit: Hits, count: int, limit: int,
                      removed0: seq<Track<K>>, all_tracked: seq<Track<K>>, all_lost: seq<Track<K>>,
                      removed: seq<Track<K>>)
    requires Start(fr) && Performs(motion, fr, steps, hit, count)
    requires Concluded(steps, fr.now, limit, removed0, all_tracked, all_lost, removed)
    ensures Fates(motion, fr, hit, limit, Ids(removed0), all_tracked, all_lost)
  {
    hide Performs, Start, Settled, Collected, LostNow, LeftLate, Joint, StillThere, Expired, Outcome;
    var ls := steps.settled;
    AllSettled(motion, fr, steps, hit, count);
    CopiesSettled(motion, fr, steps, hit, count);
    LostCopies(motion, fr, steps, hit, count);
    BirthsOf(motion, fr, steps, hit, count);
    ThirdDetections(motion, fr, steps, hit, count);
    TrackedFates(motion, fr, hit, ls, steps.s3.activated, steps.s3.refind, steps.born, all_tracked);
    TrackedIds(motion, fr, hit, ls, steps.s3.activated, steps.s3.refind, steps.born, all_tracked);
    forall a | a in Ids(all_tracked) ensures a in hit {
      var i := IdAt(all_tracked, a);
      assert TrackedFate(motion, fr, hit, all_tracked[i]);
    }
    forall r | RefOk(fr, r)
      ensures IdOf(fr, r) in Ids(all_lost) <==> Pooled(fr, r) && IdOf(fr, r) !in hit && IdOf(fr, r) !in Ids(removed0)
    {
      LostIds(motion, fr, hit, ls, steps.lost_stracks, Ids(all_tracked), Ids(removed0), all_lost, r);
    }
    forall t | t in all_lost
      ensures LostFate(motion, fr, hit, limit, t)
    {
      NotMatched(motion, fr, hit, ls, steps.lost_stracks, Ids(all_tracked), Ids(removed0), all_lost, t);
      LostFateOf(motion, fr, steps, hit, limit, t);
    }
  }

  lemma NotMatched<K>(motion: Motion<K>, fr: Frame<K>, hit: Hits, ls: Lists<K>, lost_stracks: seq<Track<K>>,
                      matched: set<int>, removed0: set<int>, all_lost: seq<Track<K>>, t: Track<K>)
    requires Settled(motion, fr, hit, ls) && LostNow(fr, ls, hit, lost_stracks) && t in all_lost
    requires forall a :: a in hit <==> a in matched
    requires Ids(all_lost) == Ids(ls.lost) - matched + Ids(lost_stracks) - removed0
    ensures t.track_id !in hit
  {
    hide Outcome, Ids;
    IdsOf(all_lost);
    NowIds(motion, fr, hit, ls, lost_stracks);
  }

  // ---- Who is removed ----

  /** The identifier of an unconfirmed track that got no object. */
  ghost predicate Rejected<K>(fr: Frame<K>, hit: Hits, a: int) {
    exists i :: 0 <= i < |fr.tracked| && fr.tracked[i].track_id == a && !fr.tracked[i].is_activated && a !in hit
  }

  /** The identifier of a lost track whose last match, perhaps in this frame, is further back than the limit. */
  ghost predicate Overdue<K>(fr: Frame<K>, hit: Hits, limit: int, a: int) {
    exists j :: 0 <= j < |fr.lost| && fr.lost[j].track_id == a &&
      fr.now - (if a in hit then fr.now else fr.lost[j].frame_id) > limit
  }

  /** The list of removed tracks grows by exactly the rejected and the overdue ones. */
  ghost predicate Retired<K>(fr: Frame<K>, hit: Hits, limit: int, removed0: seq<Track<K>>, removed: seq<Track<K>>) {
    && removed0 <= removed
    && forall a :: a in Ids(removed[|removed0|..]) <==> Rejected(fr, hit, a) || Overdue(fr, hit, limit, a)
  }

  lemma {:induction false} ExpiredExactly<K>(lost: seq<Track<K>>, now: int, limit: int)
    ensures forall a :: a in Ids(Expired(lost, now, limit)) <==>
              exists j :: 0 <= j < |lost| && lost[j].track_id == a && now - lost[j].frame_id > limit
  {
    if lost != [] {
      var front, t := lost[..|lost| - 1], lost[|lost| - 1];
      ExpiredExactly(front, now, limit);
      IdsAppend(Expired(front, now, limit), Aged(t, now, limit));
      assert lost == front + [t];
    }
  }

  lemma OverdueExactly<K>(motion: Motion<K>, fr: Frame<K>, hit: Hits, limit: int, ls: Lists<K>, a: int)
    requires Settled(motion, fr, hit, ls)
    ensures a in Ids(Expired(ls.lost, fr.now, limit)) <==> Overdue(fr, hit, limit, a)
  {
    hide Ids, Expired;
    ExpiredExactly(ls.lost, fr.now, limit);
    forall j | 0 <= j < |fr.lost|
      ensures ls.lost[j].track_id == fr.lost[j].track_id
      ensures ls.lost[j].frame_id == if fr.lost[j].track_id in hit then fr.now else fr.lost[j].frame_id
    {
      assert Fated(motion, fr, hit, InLost(j), ls.Entry(InLost(j)));
    }
  }

  lemma RejectedExactly<K>(motion: Motion<K>, fr: Frame<K>, steps: Steps<K>, hit: Hits, count: int, a: int)
    requires Start(fr) && Performs(motion, fr, steps, hit, count)
    ensures a in Ids(steps.removed_stracks) <==> Rejected(fr, hit, a)
  {
    hide Performed, Start, Outcome, Delivered, Chosen, FirstStage, SecondStage, Ids;
    var s3, copies := steps.s3, steps.removed_stracks;
    ShapesKept(motion, fr, steps, hit, count);
    PlacesFree(motion, fr, steps, hit, count);
    AllSettled(motion, fr, steps, hit, count);
    RowsLeft(fr, s3, THIRD_THRESH, steps.s2.after);
    IdsOf(copies);
    if a in Ids(copies) {
      var k := IdAt(copies, a);
      var r := s3.refs[s3.ua[k]];
      assert r in s3.refs;
      EveryOutcome(motion, fr, steps, hit, count, r);
      assert Fated(motion, fr, hit, r, steps.settled.Entry(r));
    }
    if Rejected(fr, hit, a) {
      var i :| 0 <= i < |fr.tracked| && fr.tracked[i].track_id == a && !fr.tracked[i].is_activated && a !in hit;
      var r := InTracked(i);
      EveryOutcome(motion, fr, steps, hit, count, r);
      assert Fated(motion, fr, hit, r, steps.settled.Entry(r));
      assert r in s3.refs;
      var k :| 0 <= k < |s3.refs| && s3.refs[k] == r;
      var l :| 0 <= l < |s3.ua| && s3.ua[l] == k;
      assert copies[l].track_id == a;
    }
  }

  lemma RemovedExactly<K>(motion: Motion<K>, fr: Frame<K>, steps: Steps<K>, hit: Hits, count: int, limit: int,
                          removed0: seq<Track<K>>, all_tracked: seq<Track<K>>, all_lost: seq<Track<K>>,
                          removed: seq<Track<K>>)
    requires Start(fr) && Performs(motion, fr, steps, hit, count)
    requires Concluded(steps, fr.now, limit, removed0, all_tracked, all_lost, removed)
    ensures Retired(fr, hit, limit, removed0, removed)
  {
    hide Performs, Start, Settled, Rejected, Overdue, Joint, StillThere, Expired, Ids, LeftLate;
    AllSettled(motion, fr, steps, hit, count);
    var expired := Expired(steps.settled.lost, fr.now, limit);
    assert removed[|removed0|..] == steps.removed_stracks + expired;
    IdsConcat(steps.removed_stracks, expired);
    forall a
      ensures a in Ids(removed[|removed0|..]) <==> Rejected(fr, hit, a) || Overdue(fr, hit, limit, a)
    {
      RejectedExactly(motion, fr, steps, hit, count, a);
      OverdueExactly(motion, fr, hit, limit, steps.settled, a);
    }
  }
}
