/** `remove_duplicate_stracks`: of two overlapping tracks the shorter-lived one is dropped. */
module Duplicates {
  import opened Iou
  import opened Tracks

  const TOO_CLOSE: real := 0.15

  predicate Close<K>(a: Track<K>, b: Track<K>) {
    Distance(a.tlbr, b.tlbr) < TOO_CLOSE
  }

  /** A member of the first list gives way to a close member of the second that lived at least as long. */
  predicate YieldsA<K>(sa: seq<Track<K>>, sb: seq<Track<K>>, i: int)
    requires 0 <= i < |sa|
  {
    exists j :: 0 <= j < |sb| && Close(sa[i], sb[j]) && sa[i].Lifetime() <= sb[j].Lifetime()
  }

  /** A member of the second list gives way to a close member of the first that lived longer. */
  predicate YieldsB<K>(sa: seq<Track<K>>, sb: seq<Track<K>>, j: int)
    requires 0 <= j < |sb|
  {
    exists i :: 0 <= i < |sa| && Close(sa[i], sb[j]) && sb[j].Lifetime() < sa[i].Lifetime()
  }

  /** The members of `ts` at the positions outside `drop`, in order. */
  function Kept<K>(ts: seq<Track<K>>, drop: set<int>): (r: seq<Track<K>>) {
    if ts == [] then []
    else Kept(ts[..|ts| - 1], drop) + if |ts| - 1 in drop then [] else [ts[|ts| - 1]]
  }

  lemma {:induction false} KeptIds<K>(ts: seq<Track<K>>, drop: set<int>)
    ensures Ids(Kept(ts, drop)) <= Ids(ts)
    ensures |Kept(ts, drop)| <= |ts|
  {
    if ts != [] {
      var r := Kept(ts[..|ts| - 1], drop);
      KeptIds(ts[..|ts| - 1], drop);
      IdsAppend(r, ts[|ts| - 1]);
      assert r + [] == r;
    }
  }

  /** Every kept track stood at a position that was not dropped. */
  lemma {:induction false} KeptFrom<K>(ts: seq<Track<K>>, drop: set<int>, k: nat) returns (i: nat)
    requires k < |Kept(ts, drop)|
    ensures i < |ts| && i !in drop && Kept(ts, drop)[k] == ts[i]
  {
    var last := |ts| - 1;
    if k < |Kept(ts[..last], drop)| {
      i := KeptFrom(ts[..last], drop, k);
    } else {
      i := last;
    }
  }

  lemma KeptMembers<K>(ts: seq<Track<K>>, drop: set<int>)
    ensures forall k :: 0 <= k < |Kept(ts, drop)| ==> Kept(ts, drop)[k] in ts
  {
  }

  lemma {:induction false} KeptAscending<K>(ts: seq<Track<K>>, drop: set<int>)
    ensures AscendingIds(ts) ==> AscendingIds(Kept(ts, drop))
    ensures DistinctIds(ts) ==> DistinctIds(Kept(ts, drop))
  {
    if ts != [] {
      KeptAscending(ts[..|ts| - 1], drop);
      KeptMembers(ts[..|ts| - 1], drop);
    }
  }

  ghost function DroppedA<K>(sa: seq<Track<K>>, sb: seq<Track<K>>): set<int>
  {
    set i | 0 <= i < |sa| && YieldsA(sa, sb, i)
  }

  ghost function DroppedB<K>(sa: seq<Track<K>>, sb: seq<Track<K>>): set<int>
  {
    set j | 0 <= j < |sb| && YieldsB(sa, sb, j)
  }

  /** No close pair survives. */
  lemma SurvivorsApart<K>(sa: seq<Track<K>>, sb: seq<Track<K>>, k: nat, l: nat)
    requires k < |Kept(sa, DroppedA(sa, sb))| && l < |Kept(sb, DroppedB(sa, sb))|
    ensures var a, b := Kept(sa, DroppedA(sa, sb))[k], Kept(sb, DroppedB(sa, sb))[l];
            !Close(a, b)
  {
    var i := KeptFrom(sa, DroppedA(sa, sb), k);
    var j := KeptFrom(sb, DroppedB(sa, sb), l);
    assert !YieldsA(sa, sb, i) && !YieldsB(sa, sb, j);
  }

  /** A kept position is found again. */
  lemma {:induction false} KeptStays<K>(ts: seq<Track<K>>, drop: set<int>, i: nat)
    requires i < |ts| && i !in drop
    ensures ts[i] in Kept(ts, drop)
  {
    if i < |ts| - 1 {
      KeptStays(ts[..|ts| - 1], drop, i);
    }
  }

  /** Every close track of the other list has been on the way for a shorter time; also for as long if `ties`. */
  ghost predicate Outlives<K>(t: Track<K>, others: seq<Track<K>>, ties: bool) {
    forall u :: u in others && Distance(t.tlbr, u.tlbr) < 0.15 ==>
      var mine, theirs := t.frame_id - t.start_frame, u.frame_id - u.start_frame;
      mine > theirs || (ties && mine == theirs)
  }

  /** Who stays: in both lists exactly the tracks that outlive all close ones; a tie goes to the second list. */
  ghost predicate LongestStay<K>(sa: seq<Track<K>>, sb: seq<Track<K>>, resa: seq<Track<K>>, resb: seq<Track<K>>) {
    && (forall t :: t in sa ==> (t in resa <==> Outlives(t, sb, false))) && (forall t :: t in resa ==> t in sa)
    && (forall u :: u in sb ==> (u in resb <==> Outlives(u, sa, true))) && (forall u :: u in resb ==> u in sb)
  }

  lemma StayingA<K>(sa: seq<Track<K>>, sb: seq<Track<K>>, i: int)
    requires 0 <= i < |sa|
    ensures YieldsA(sa, sb, i) <==> !Outlives(sa[i], sb, false)
  {
    if !Outlives(sa[i], sb, false) {
      var u :| u in sb && Distance(sa[i].tlbr, u.tlbr) < 0.15 &&
          sa[i].frame_id - sa[i].start_frame <= u.frame_id - u.start_frame;
      var j :| 0 <= j < |sb| && sb[j] == u;
      assert Close(sa[i], sb[j]);
    }
  }

  lemma StayingB<K>(sa: seq<Track<K>>, sb: seq<Track<K>>, j: int)
    requires 0 <= j < |sb|
    ensures YieldsB(sa, sb, j) <==> !Outlives(sb[j], sa, true)
  {
    if YieldsB(sa, sb, j) {
      var i :| 0 <= i < |sa| && Close(sa[i], sb[j]) && sb[j].Lifetime() < sa[i].Lifetime();
      DistanceSymmetric(sa[i].tlbr, sb[j].tlbr);
    }
    if !Outlives(sb[j], sa, true) {
      var t :| t in sa && Distance(sb[j].tlbr, t.tlbr) < 0.15 &&
          sb[j].frame_id - sb[j].start_frame < t.frame_id - t.start_frame;
      var i :| 0 <= i < |sa| && sa[i] == t;
      DistanceSymmetric(sa[i].tlbr, sb[j].tlbr);
      assert Close(sa[i], sb[j]);
    }
  }

  /** In terms of the tracks' fields: of a close pair the one on the way for longer stays. */
  lemma LongestStays<K>(sa: seq<Track<K>>, sb: seq<Track<K>>)
    ensures LongestStay(sa, sb, Kept(sa, DroppedA(sa, sb)), Kept(sb, DroppedB(sa, sb)))
  {
    hide Outlives, YieldsA, YieldsB;
    var resa, resb := Kept(sa, DroppedA(sa, sb)), Kept(sb, DroppedB(sa, sb));
    forall t | t in resa
      ensures t in sa && Outlives(t, sb, false)
    {
      var k :| 0 <= k < |resa| && resa[k] == t;
      var i := KeptFrom(sa, DroppedA(sa, sb), k);
      StayingA(sa, sb, i);
    }
    forall t | t in sa && Outlives(t, sb, false)
      ensures t in resa
    {
      var i :| 0 <= i < |sa| && sa[i] == t;
      StayingA(sa, sb, i);
      KeptStays(sa, DroppedA(sa, sb), i);
    }
    forall u | u in resb
      ensures u in sb && Outlives(u, sa, true)
    {
      var k :| 0 <= k < |resb| && resb[k] == u;
      var j := KeptFrom(sb, DroppedB(sa, sb), k);
      StayingB(sa, sb, j);
    }
    forall u | u in sb && Outlives(u, sa, true)
      ensures u in resb
    {
      var j :| 0 <= j < |sb| && sb[j] == u;
      StayingB(sa, sb, j);
      KeptStays(sb, DroppedB(sa, sb), j);
    }
  }

  /** A member of either list. */
  datatype Member = InA(i: int) | InB(j: int)

  ghost predicate Valid<K>(sa: seq<Track<K>>, sb: seq<Track<K>>, m: Member) {
    match m case InA(i) => 0 <= i < |sa| case InB(j) => 0 <= j < |sb|
  }

  ghost function TrackOf<K>(sa: seq<Track<K>>, sb: seq<Track<K>>, m: Member): Track<K>
    requires Valid(sa, sb, m)
  {
    match m case InA(i) => sa[i] case InB(j) => sb[j]
  }

  /** The member outlives all its close ones, so it stays. */
  ghost predicate Stays<K>(sa: seq<Track<K>>, sb: seq<Track<K>>, m: Member)
    requires Valid(sa, sb, m)
  {
    match m case InA(i) => Outlives(sa[i], sb, false) case InB(j) => Outlives(sb[j], sa, true)
  }

  /** Close members of different lists, the second on the way at least as long as the first. */
  ghost predicate GivesWay<K>(sa: seq<Track<K>>, sb: seq<Track<K>>, m: Member, n: Member)
  {
    && Valid(sa, sb, m) && Valid(sa, sb, n) && m.InA? != n.InA?
    && var t, u := TrackOf(sa, sb, m), TrackOf(sa, sb, n);
       Distance(t.tlbr, u.tlbr) < 0.15 && t.frame_id - t.start_frame <= u.frame_id - u.start_frame
  }

  ghost function LongestLife<K>(ts: seq<Track<K>>): (b: int)
    ensures forall i :: 0 <= i < |ts| ==> ts[i].Lifetime() <= b
  {
    if ts == [] then 0
    else
      var b := LongestLife(ts[..|ts| - 1]);
      if b < ts[|ts| - 1].Lifetime() then ts[|ts| - 1].Lifetime() else b
  }

  /** Someone in whose favour a member goes. */
  lemma Rival<K>(sa: seq<Track<K>>, sb: seq<Track<K>>, m: Member) returns (n: Member)
    requires Valid(sa, sb, m) && !Stays(sa, sb, m)
    ensures GivesWay(sa, sb, m, n)
    ensures m.InB? ==> TrackOf(sa, sb, m).Lifetime() < TrackOf(sa, sb, n).Lifetime()
  {
    match m {
      case InA(i) =>
        var u :| u in sb && Distance(sa[i].tlbr, u.tlbr) < 0.15 &&
          sa[i].frame_id - sa[i].start_frame <= u.frame_id - u.start_frame;
        var j :| 0 <= j < |sb| && sb[j] == u;
        n := InB(j);
      case InB(j) =>
        var t :| t in sa && Distance(sb[j].tlbr, t.tlbr) < 0.15 &&
          sb[j].frame_id - sb[j].start_frame < t.frame_id - t.start_frame;
        var i :| 0 <= i < |sa| && sa[i] == t;
        n := InA(i);
    }
  }

  /** From every dropped track a chain of close pairs, lifetimes never falling, leads to one that stays. */
  lemma {:induction false} ChainToSurvivor<K>(sa: seq<Track<K>>, sb: seq<Track<K>>, m: Member)
    returns (chain: seq<Member>)
    requires Valid(sa, sb, m)
    ensures |chain| > 0 && chain[0] == m
    ensures forall k :: 0 <= k < |chain| - 1 ==> GivesWay(sa, sb, chain[k], chain[k + 1])
    ensures Valid(sa, sb, chain[|chain| - 1]) && Stays(sa, sb, chain[|chain| - 1])
    decreases LongestLife(sa) + LongestLife(sb) - TrackOf(sa, sb, m).Lifetime() + Spread(sa, sb), m.InA?
  {
    if Stays(sa, sb, m) {
      chain := [m];
    } else {
      var n := Rival(sa, sb, m);
      var rest := ChainToSurvivor(sa, sb, n);
      chain := [m] + rest;
    }
  }

  ghost function Spread<K>(sa: seq<Track<K>>, sb: seq<Track<K>>): int {
    var a, b := LongestLife(sa), LongestLife(sb);
    (if a < 0 then -a else a) + if b < 0 then -b else b
  }

  method Boxes<K>(ts: seq<Track<K>>) returns (bs: seq<Box>)
    ensures |bs| == |ts| && forall i :: 0 <= i < |ts| ==> bs[i] == ts[i].tlbr
  {
    bs := [];
    for i := 0 to |ts|
      invariant |bs| == i && forall k :: 0 <= k < i ==> bs[k] == ts[k].tlbr
    {
      bs := bs + [ts[i].tlbr];
    }
  }

  /** All close pairs, row by row. */
  method ClosePairs<K>(sa: seq<Track<K>>, sb: seq<Track<K>>) returns (pairs: seq<(int, int)>)
    ensures forall i, j :: (i, j) in pairs <==> 0 <= i < |sa| && 0 <= j < |sb| && Close(sa[i], sb[j])
  {
    var boxesA := Boxes(sa);
    var boxesB := Boxes(sb);
    var pdist := IouDistance(boxesA, boxesB);
    pairs := [];
    for i := 0 to |pdist|
      invariant forall k, l :: (k, l) in pairs <==> 0 <= k < i && 0 <= l < |sb| && Close(sa[k], sb[l])
    {
      for j := 0 to |pdist[i]|
        invariant forall k, l :: (k, l) in pairs <==>
          ((0 <= k < i && 0 <= l < |sb|) || (k == i && 0 <= l < j)) && Close(sa[k], sb[l])
      {
        if pdist[i][j] < TOO_CLOSE {
          pairs := pairs + [(i, j)];
        }
      }
    }
  }

  method Filter<K>(ts: seq<Track<K>>, dup: seq<int>) returns (res: seq<Track<K>>)
    ensures res == Kept(ts, set k | k in dup)
  {
    res := [];
    for i := 0 to |ts|
      invariant res == Kept(ts[..i], set k | k in dup)
    {
      assert ts[..i + 1][..i] == ts[..i];
      if i !in dup {
        res := res + [ts[i]];
      }
    }
    assert ts[..|ts|] == ts;
  }

  /** The second member of the pair lived at least as long as the first. */
  ghost predicate Loses<K>(sa: seq<Track<K>>, sb: seq<Track<K>>, p: (int, int)) {
    0 <= p.0 < |sa| && 0 <= p.1 < |sb| && sa[p.0].Lifetime() <= sb[p.1].Lifetime()
  }

  lemma DuplicatesDropped<K>(sa: seq<Track<K>>, sb: seq<Track<K>>, pairs: seq<(int, int)>, dupa: seq<int>,
                             dupb: seq<int>)
    requires forall i, j :: (i, j) in pairs <==> 0 <= i < |sa| && 0 <= j < |sb| && Close(sa[i], sb[j])
    requires forall i :: i in dupa <==> exists k :: 0 <= k < |pairs| && pairs[k].0 == i && Loses(sa, sb, pairs[k])
    requires forall j :: j in dupb <==> exists k :: 0 <= k < |pairs| && pairs[k].1 == j && !Loses(sa, sb, pairs[k])
    ensures (set k | k in dupa) == DroppedA(sa, sb) && (set k | k in dupb) == DroppedB(sa, sb)
  {
    forall i, j | (i, j) in pairs
      ensures Loses(sa, sb, (i, j)) ==> i in dupa
      ensures !Loses(sa, sb, (i, j)) ==> j in dupb
    {
      var k :| 0 <= k < |pairs| && pairs[k] == (i, j);
    }
    forall k | 0 <= k < |pairs|
      ensures 0 <= pairs[k].0 < |sa| && 0 <= pairs[k].1 < |sb| && Close(sa[pairs[k].0], sb[pairs[k].1])
    {
      assert (pairs[k].0, pairs[k].1) in pairs;
    }
  }

  method RemoveDuplicates<K>(sa: seq<Track<K>>, sb: seq<Track<K>>) returns (resa: seq<Track<K>>, resb: seq<Track<K>>)
    ensures resa == Kept(sa, DroppedA(sa, sb)) && resb == Kept(sb, DroppedB(sa, sb))
    ensures LongestStay(sa, sb, resa, resb)
  {
    hide LongestStay, Kept, YieldsA, YieldsB;
    var pairs := ClosePairs(sa, sb);
    var dupa, dupb := [], [];
    for p := 0 to |pairs|
      invariant forall i :: i in dupa <==> exists k :: 0 <= k < p && pairs[k].0 == i && Loses(sa, sb, pairs[k])
      invariant forall j :: j in dupb <==> exists k :: 0 <= k < p && pairs[k].1 == j && !Loses(sa, sb, pairs[k])
    {
      var (i, j) := pairs[p];
      assert (i, j) in pairs;
      if sa[i].Lifetime() > sb[j].Lifetime() {
        dupb := dupb + [j];
      } else {
        dupa := dupa + [i];
      }
    }
    DuplicatesDropped(sa, sb, pairs, dupa, dupb);
    resa := Filter(sa, dupa);
    resb := Filter(sb, dupb);
    LongestStays(sa, sb);
  }
}
