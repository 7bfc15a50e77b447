/** Tracks and the list operations of the tracker. */
module Tracks {
  import opened Iou

  datatype TrackState = New | Tracked | Lost | Removed

  /** The parts of a box tracker that follow motion: `K` is a Kalman mean and covariance. */
  datatype Motion<!K> = Motion(initiate: Box -> K, predict: (K, bool) -> K, correct: (K, Box) -> K, box: K -> Box)

  datatype Option<T> = None | Some(value: T)

  /** `STrack`. A detection is a track in state New that has no motion yet. */
  datatype Track<K> = Track(track_id: int, state: TrackState, is_activated: bool, frame_id: int, start_frame: int,
                            tracklet_len: int, score: real, motion: Option<K>, tlbr: Box)
  {
    /** `activate`, with the identifier issued by `next_id`. */
    function Activate(m: Motion<K>, id: int, frame: int): Track<K> {
      this.(track_id := id, motion := Some(m.initiate(tlbr)), tracklet_len := 0, state := Tracked,
            is_activated := is_activated || frame == 1, frame_id := frame, start_frame := frame)
    }

    /** The corrected motion and the box read off it. */
    function Corrected(m: Motion<K>, det: Box): Track<K> {
      match motion
      case Some(k) => this.(motion := Some(m.correct(k, det)), tlbr := m.box(m.correct(k, det)))
      case None => this
    }

    /** `update` with a detection. */
    function Update(m: Motion<K>, det: Track<K>, frame: int): Track<K> {
      Corrected(m, det.tlbr).(frame_id := frame, tracklet_len := tracklet_len + 1, state := Tracked,
                              is_activated := true, score := det.score)
    }

    /** `re_activate` without a new identifier. */
    function ReActivate(m: Motion<K>, det: Track<K>, frame: int): Track<K> {
      Corrected(m, det.tlbr).(frame_id := frame, tracklet_len := 0, state := Tracked, is_activated := true,
                              score := det.score)
    }

    /** One step of `multi_predict`: the height velocity is cleared unless the track is Tracked. */
    function Predict(m: Motion<K>): Track<K> {
      match motion
      case Some(k) =>
        var k' := m.predict(k, state != Tracked);
        this.(motion := Some(k'), tlbr := m.box(k'))
      case None => this
    }

    function Lifetime(): int { frame_id - start_frame }
  }

  function Ids<K>(ts: seq<Track<K>>): set<int> {
    if ts == [] then {} else Ids(ts[..|ts| - 1]) + {ts[|ts| - 1].track_id}
  }

  lemma {:induction false} IdsOf<K>(ts: seq<Track<K>>)
    ensures forall i :: 0 <= i < |ts| ==> ts[i].track_id in Ids(ts)
    ensures forall id :: id in Ids(ts) ==> exists i :: 0 <= i < |ts| && ts[i].track_id == id
  {
    if ts != [] {
      var k := |ts| - 1;
      IdsOf(ts[..k]);
      forall id | id in Ids(ts)
        ensures exists i :: 0 <= i < |ts| && ts[i].track_id == id
      {
        if id != ts[k].track_id {
          var i :| 0 <= i < k && ts[..k][i].track_id == id;
          assert ts[i].track_id == id;
        } else {
          assert ts[k].track_id == id;
        }
      }
    }
  }

  lemma IdsListed<K>(ts: seq<Track<K>>)
    ensures forall i :: 0 <= i < |ts| ==> ts[i].track_id in Ids(ts)
  {
    IdsOf(ts);
  }

  /** A place where an identifier of the list occurs. */
  lemma IdAt<K>(ts: seq<Track<K>>, id: int) returns (i: nat)
    requires id in Ids(ts)
    ensures i < |ts| && ts[i].track_id == id
  {
    IdsOf(ts);
    i :| 0 <= i < |ts| && ts[i].track_id == id;
  }

  ghost predicate DistinctIds<K>(ts: seq<Track<K>>) {
    forall i, j :: 0 <= i < j < |ts| ==> ts[i].track_id != ts[j].track_id
  }

  ghost predicate AscendingIds<K>(ts: seq<Track<K>>) {
    forall i, j :: 0 <= i < j < |ts| ==> ts[i].track_id < ts[j].track_id
  }

  /** The first list followed by the tracks of the second whose identifier is new. */
  function Joint<K>(a: seq<Track<K>>, b: seq<Track<K>>): (r: seq<Track<K>>) {
    if b == [] then a
    else
      var r := Joint(a, b[..|b| - 1]);
      if b[|b| - 1].track_id in Ids(r) then r else r + [b[|b| - 1]]
  }

  lemma {:induction false} SameIds<K>(a: seq<Track<K>>, b: seq<Track<K>>)
    requires |a| == |b| && forall i :: 0 <= i < |a| ==> a[i].track_id == b[i].track_id
    ensures Ids(a) == Ids(b)
  {
    if a != [] {
      SameIds(a[..|a| - 1], b[..|b| - 1]);
    }
  }

  lemma IdsAppend<K>(ts: seq<Track<K>>, t: Track<K>)
    ensures Ids(ts + [t]) == Ids(ts) + {t.track_id}
  {
    assert (ts + [t])[..|ts|] == ts;
  }

  lemma {:induction false} IdsConcat<K>(a: seq<Track<K>>, b: seq<Track<K>>)
    ensures Ids(a + b) == Ids(a) + Ids(b)
  {
    if b == [] {
      assert a + b == a;
    } else {
      IdsConcat(a, b[..|b| - 1]);
      assert (a + b)[..|a + b| - 1] == a + b[..|b| - 1];
    }
  }

  lemma {:induction false} JointIds<K>(a: seq<Track<K>>, b: seq<Track<K>>)
    ensures Ids(Joint(a, b)) == Ids(a) + Ids(b)
  {
    if b != [] {
      var k := |b| - 1;
      JointIds(a, b[..k]);
      IdsAppend(Joint(a, b[..k]), b[k]);
    }
  }

  lemma {:induction false} JointContents<K>(a: seq<Track<K>>, b: seq<Track<K>>)
    ensures forall t :: t in Joint(a, b) ==> t in a || t in b
    ensures a <= Joint(a, b)
  {
    if b != [] {
      JointContents(a, b[..|b| - 1]);
    }
  }

  lemma {:induction false} JointDistinct<K>(a: seq<Track<K>>, b: seq<Track<K>>)
    requires DistinctIds(a)
    ensures DistinctIds(Joint(a, b))
  {
    if b != [] {
      JointDistinct(a, b[..|b| - 1]);
      IdsListed(Joint(a, b[..|b| - 1]));
    }
  }

  lemma IdsNext<K>(ts: seq<Track<K>>, i: nat)
    requires i < |ts|
    ensures Ids(ts[..i + 1]) == Ids(ts[..i]) + {ts[i].track_id}
  {
    assert ts[..i + 1] == ts[..i] + [ts[i]];
    IdsAppend(ts[..i], ts[i]);
  }

  lemma JointNext<K>(a: seq<Track<K>>, b: seq<Track<K>>, i: nat)
    requires i < |b|
    ensures Joint(a, b[..i + 1]) == if b[i].track_id in Ids(Joint(a, b[..i])) then Joint(a, b[..i])
                                    else Joint(a, b[..i]) + [b[i]]
  {
    assert b[..i + 1][..i] == b[..i];
  }

  /** `joint_stracks`. */
  method JointStracks<K>(a: seq<Track<K>>, b: seq<Track<K>>) returns (res: seq<Track<K>>)
    ensures res == Joint(a, b)
  {
    var present: set<int> := {};
    res := [];
    for i := 0 to |a|
      invariant res == a[..i] && present == Ids(res)
    {
      IdsNext(a, i);
      present := present + {a[i].track_id};
      res := res + [a[i]];
    }
    assert a[..|a|] == a && Joint(a, b[..0]) == a;
    hide Joint, Ids;
    for i := 0 to |b|
      invariant res == Joint(a, b[..i]) && present == Ids(res)
    {
      JointNext(a, b, i);
      if b[i].track_id !in present {
        present := present + {b[i].track_id};
        IdsAppend(res, b[i]);
        res := res + [b[i]];
      }
    }
    assert b[..|b|] == b;
  }

  /** `map::insert` on an ordered map, kept as the ascending list of its values: a present key stays. */
  function Insert<K>(s: seq<Track<K>>, t: Track<K>): (r: seq<Track<K>>)
    requires AscendingIds(s)
    ensures AscendingIds(r)
    ensures forall i :: 0 <= i < |r| ==> r[i] == t || r[i] in s
  {
    if s == [] then [t]
    else
      var k := |s| - 1;
      if s[k].track_id < t.track_id then s + [t]
      else if s[k].track_id == t.track_id then s
      else Insert(s[..k], t) + [s[k]]
  }

  /** `map::erase` on an ordered map. */
  function Erase<K>(s: seq<Track<K>>, id: int): (r: seq<Track<K>>)
    requires AscendingIds(s)
    ensures AscendingIds(r)
    ensures forall i :: 0 <= i < |r| ==> r[i] in s && r[i].track_id != id
  {
    if s == [] then []
    else
      var k := |s| - 1;
      if s[k].track_id == id then s[..k] else Erase(s[..k], id) + [s[k]]
  }

  lemma {:induction false} InsertIds<K>(s: seq<Track<K>>, t: Track<K>)
    requires AscendingIds(s)
    ensures Ids(Insert(s, t)) == Ids(s) + {t.track_id}
  {
    if s == [] {
      IdsAppend(s, t);
      assert s + [t] == [t];
    } else {
      var k := |s| - 1;
      if s[k].track_id < t.track_id {
        IdsAppend(s, t);
      } else if s[k].track_id > t.track_id {
        InsertIds(s[..k], t);
        IdsAppend(Insert(s[..k], t), s[k]);
      }
    }
  }

  lemma {:induction false} EraseIds<K>(s: seq<Track<K>>, id: int)
    requires AscendingIds(s)
    ensures Ids(Erase(s, id)) == Ids(s) - {id}
  {
    if s != [] {
      var k := |s| - 1;
      if s[k].track_id == id {
        IdsOf(s[..k]);
      } else {
        EraseIds(s[..k], id);
        IdsAppend(Erase(s[..k], id), s[k]);
      }
    }
  }

  lemma {:induction false} InsertPresent<K>(s: seq<Track<K>>, t: Track<K>)
    requires AscendingIds(s) && t.track_id in Ids(s)
    ensures Insert(s, t) == s
  {
    if s != [] {
      var k := |s| - 1;
      if s[k].track_id > t.track_id {
        InsertPresent(s[..k], t);
      } else if s[k].track_id < t.track_id {
        var i := IdAt(s, t.track_id);
        assert false;
      }
    }
  }

  /** The track is in the list, and no track before it has its identifier. */
  ghost predicate FirstOf<K>(ts: seq<Track<K>>, t: Track<K>) {
    exists j :: 0 <= j < |ts| && ts[j] == t && forall l :: 0 <= l < j ==> ts[l].track_id != t.track_id
  }

  lemma InsertKeepsFirst<K>(s: seq<Track<K>>, ts: seq<Track<K>>, i: nat)
    requires AscendingIds(s) && i < |ts| && Ids(s) == Ids(ts[..i])
    requires forall k :: 0 <= k < |s| ==> FirstOf(ts, s[k])
    ensures forall k :: 0 <= k < |Insert(s, ts[i])| ==> FirstOf(ts, Insert(s, ts[i])[k])
  {
    IdsOf(ts[..i]);
    if ts[i].track_id in Ids(s) {
      InsertPresent(s, ts[i]);
    } else {
      assert forall l :: 0 <= l < i ==> ts[..i][l] == ts[l];
      assert FirstOf(ts, ts[i]);
    }
  }

  /** `sub_stracks`: the tracks of `a` whose identifier is not in `b`, in the order of an ordered map; of tracks
      with one identifier the first stays. */
  method SubStracks<K>(a: seq<Track<K>>, b: seq<Track<K>>) returns (res: seq<Track<K>>)
    ensures AscendingIds(res) && Ids(res) == Ids(a) - Ids(b)
    ensures forall i :: 0 <= i < |res| ==> FirstOf(a, res[i])
  {
    res := [];
    for i := 0 to |a|
      invariant AscendingIds(res) && Ids(res) == Ids(a[..i])
      invariant forall k :: 0 <= k < |res| ==> FirstOf(a, res[k])
    {
      assert a[..i + 1][..i] == a[..i];
      InsertIds(res, a[i]);
      InsertKeepsFirst(res, a, i);
      res := Insert(res, a[i]);
    }
    assert a[..|a|] == a;
    for i := 0 to |b|
      invariant AscendingIds(res) && Ids(res) == Ids(a) - Ids(b[..i])
      invariant forall k :: 0 <= k < |res| ==> FirstOf(a, res[k])
    {
      assert b[..i + 1][..i] == b[..i];
      EraseIds(res, b[i].track_id);
      res := Erase(res, b[i].track_id);
    }
    assert b[..|b|] == b;
  }
}
