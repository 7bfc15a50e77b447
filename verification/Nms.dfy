/**
 * The detector's last stage: sorting the proposals by score in place, then keeping every
 * proposal that does not overlap a better kept one too much.
 */
module Nms {
  import opened TrackerFrame
  import opened Iou
  import opened Permutations
  import opened Pixels

  // ---- Sorting ----

  ghost predicate Descending(s: seq<Object>) {
    forall i, j :: 0 <= i < j < |s| ==> s[i].prob >= s[j].prob
  }

  ghost predicate AtLeast(s: seq<Object>, p: real) {
    forall i :: 0 <= i < |s| ==> s[i].prob >= p
  }

  ghost predicate AtMost(s: seq<Object>, p: real) {
    forall i :: 0 <= i < |s| ==> s[i].prob <= p
  }

  lemma SameElements(s: seq<Object>, t: seq<Object>, i: int)
    requires multiset(s) == multiset(t) && 0 <= i < |t|
    ensures t[i] in s
  {
    assert t[i] in multiset(t);
  }

  lemma BoundsKept(s: seq<Object>, t: seq<Object>, p: real)
    requires multiset(s) == multiset(t)
    ensures AtLeast(s, p) ==> AtLeast(t, p)
    ensures AtMost(s, p) ==> AtMost(t, p)
  {
    forall i | 0 <= i < |t|
      ensures t[i] in s
    {
      SameElements(s, t, i);
    }
  }

  lemma ThreeParts(s: seq<Object>, x: nat, y: nat)
    requires x <= y <= |s|
    ensures multiset(s) == multiset(s[..x]) + multiset(s[x..y]) + multiset(s[y..])
  {
    assert s == s[..x] + s[x..y] + s[y..];
  }

  lemma JoinedDescending(s: seq<Object>, x: nat, y: nat, p: real)
    requires x <= y <= |s| && Descending(s[..x]) && Descending(s[y..])
    requires AtLeast(s[..x], p) && AtLeast(s[x..y], p) && AtMost(s[x..y], p) && AtMost(s[y..], p)
    ensures Descending(s)
  {
  }

  lemma SwapKeepsElements(s: seq<Object>, t: seq<Object>, i: nat, j: nat)
    requires i <= j < |s| && t == s[i := s[j]][j := s[i]]
    ensures multiset(t) == multiset(s)
  {
  }

  /** Swapping two elements of a range leaves the elements of the range as they were. */
  lemma SwapInRange(s: seq<Object>, t: seq<Object>, left: nat, right: nat, i: nat, j: nat)
    requires left <= i <= j <= right < |s| && t == s[i := s[j]][j := s[i]]
    ensures multiset(t[left..right + 1]) == multiset(s[left..right + 1])
  {
    var u, v := s[left..right + 1], t[left..right + 1];
    assert v == u[i - left := u[j - left]][j - left := u[i - left]];
    SwapKeepsElements(u, v, i - left, j - left);
  }

  method Swap(a: array<Object>, left: nat, right: nat, i: nat, j: nat)
    requires left <= i <= j <= right < a.Length
    modifies a
    ensures a[i] == old(a[j]) && a[j] == old(a[i])
    ensures forall k :: 0 <= k < a.Length && k != i && k != j ==> a[k] == old(a[k])
    ensures multiset(a[left..right + 1]) == multiset(old(a[left..right + 1]))
  {
    ghost var s := a[..];
    a[i], a[j] := a[j], a[i];
    assert a[left..right + 1] == a[..][left..right + 1] && old(a[left..right + 1]) == s[left..right + 1];
    SwapInRange(s, a[..], left, right, i, j);
  }

  /** Where the two scans stand: everything behind the left one is large, behind the right one small. */
  ghost predicate Scanned(a: array<Object>, left: nat, right: nat, i: int, j: int, p: real)
    reads a
  {
    && left <= i <= right + 1 <= a.Length && left - 1 <= j <= right
    && (forall k :: left <= k < i ==> a[k].prob >= p)
    && (forall k :: j < k <= right ==> a[k].prob <= p)
  }

  /** The scan cannot pass `stop`, whose score is not above the pivot's. */
  method ScanUp(a: array<Object>, left: nat, right: nat, i0: int, j: int, p: real, ghost stop: int) returns (i: int)
    requires Scanned(a, left, right, i0, j, p) && i0 <= stop <= right && a[stop].prob <= p
    ensures Scanned(a, left, right, i, j, p) && i0 <= i <= stop && a[i].prob <= p
  {
    i := i0;
    while a[i].prob > p
      invariant i0 <= i <= stop && Scanned(a, left, right, i, j, p)
      decreases stop - i
    {
      i := i + 1;
    }
  }

  method ScanDown(a: array<Object>, left: nat, right: nat, i: int, j0: int, p: real, ghost stop: int) returns (j: int)
    requires Scanned(a, left, right, i, j0, p) && left <= stop <= j0 && a[stop].prob >= p
    ensures Scanned(a, left, right, i, j, p) && stop <= j <= j0 && a[j].prob >= p
  {
    j := j0;
    while a[j].prob < p
      invariant stop <= j <= j0 && Scanned(a, left, right, i, j, p)
      decreases j - stop
    {
      j := j - 1;
    }
  }

  /** The two scans from the ends: both stay inside the range and both leave something behind. */
  method Partition(a: array<Object>, left: nat, right: nat, p: real, ghost pivot: int) returns (i: int, j: int)
    requires left <= pivot <= right < a.Length && a[pivot].prob == p
    modifies a
    ensures Scanned(a, left, right, i, j, p) && j < i && left < i && j < right
    ensures multiset(a[..][left..right + 1]) == multiset(old(a[..][left..right + 1]))
    ensures forall k :: 0 <= k < a.Length && !(left <= k <= right) ==> a[k] == old(a[k])
  {
    assert a[..][left..right + 1] == a[left..right + 1];
    i, j := left, right;
    ghost var swapped := false;
    while i <= j
      invariant Scanned(a, left, right, i, j, p)
      invariant if swapped then left < i && j < right else i == left && j == right && a[pivot].prob == p
      invariant multiset(a[left..right + 1]) == multiset(old(a[left..right + 1]))
      invariant forall k :: 0 <= k < left || right < k < a.Length ==> a[k] == old(a[k])
      decreases right + j - i + 2
    {
      i := ScanUp(a, left, right, i, j, p, if swapped then j + 1 else pivot);
      j := ScanDown(a, left, right, i, j, p, if swapped then i - 1 else pivot);
      if i <= j {
        Swap(a, left, right, i, j);
        swapped := true;
        i, j := i + 1, j - 1;
      }
    }
    assert a[..][left..right + 1] == a[left..right + 1];
  }

  /** The state of a range whose two ends have been sorted separately. */
  lemma SortedRange(s: seq<Object>, t: seq<Object>, x: nat, y: nat, p: real)
    requires x <= y <= |s| == |t|
    requires multiset(s[..x]) == multiset(t[..x]) && multiset(s[y..]) == multiset(t[y..])
    requires forall k :: x <= k < y ==> s[k] == t[k]
    requires forall k :: 0 <= k < y ==> s[k].prob >= p
    requires forall k :: x <= k < |s| ==> s[k].prob <= p
    requires Descending(t[..x]) && Descending(t[y..])
    ensures multiset(t) == multiset(s) && Descending(t)
  {
    assert s[x..y] == t[x..y];
    ThreeParts(s, x, y);
    ThreeParts(t, x, y);
    BoundsKept(s[..x], t[..x], p);
    BoundsKept(s[y..], t[y..], p);
    JoinedDescending(t, x, y, p);
  }

  /** `t` is `s` with only the places from lo to hi rearranged, in descending order. */
  ghost predicate Rearranged(s: seq<Object>, t: seq<Object>, lo: int, hi: int) {
    && 0 <= lo <= hi + 1 <= |s| == |t|
    && Descending(t[lo..hi + 1])
    && multiset(t[lo..hi + 1]) == multiset(s[lo..hi + 1])
    && forall k :: 0 <= k < |s| && !(lo <= k <= hi) ==> t[k] == s[k]
  }

  lemma BothSides(s: seq<Object>, t: seq<Object>, u: seq<Object>, left: nat, right: nat, i: int, j: int, p: real)
    requires left <= j + 1 <= i <= right + 1 <= |s|
    requires forall k :: left <= k < i ==> s[k].prob >= p
    requires forall k :: j < k <= right ==> s[k].prob <= p
    requires Rearranged(s, t, left, j) && Rearranged(t, u, i, right)
    ensures Rearranged(s, u, left, right)
  {
    hide Descending;
    var x, y := j + 1 - left, i - left;
    var s0, u0 := s[left..right + 1], u[left..right + 1];
    assert u0[..x] == t[left..j + 1] && s0[..x] == s[left..j + 1];
    assert forall k :: x <= k < y ==> u0[k] == u[left + k] == s[left + k] == s0[k];
    assert u0[y..] == u[i..right + 1] && s0[y..] == t[i..right + 1];
    SortedRange(s0, u0, x, y, p);
  }

  method QsortRange(a: array<Object>, left: nat, right: nat)
    requires left <= right < a.Length
    modifies a
    ensures Rearranged(old(a[..]), a[..], left, right)
    decreases right - left, 0
  {
    var p := a[(left + right) / 2].prob;
    var i, j := Partition(a, left, right, p, (left + right) / 2);
    ghost var s := a[..];
    QsortSide(a, left, j);
    ghost var t := a[..];
    QsortSide(a, i, right);
    BothSides(s, t, a[..], left, right, i, j, p);
  }

  /** One of the two recursive calls, which are made for ranges of two elements or more. */
  method QsortSide(a: array<Object>, left: int, right: int)
    requires 0 <= left <= right + 1 <= a.Length
    modifies a
    ensures Rearranged(old(a[..]), a[..], left, right)
    decreases right - left, 1
  {
    if left < right {
      QsortRange(a, left, right);
    }
  }

  method QsortDescentInplace(objects: array<Object>)
    modifies objects
    ensures Descending(objects[..]) && multiset(objects[..]) == multiset(old(objects[..]))
  {
    if objects.Length == 0 {
      return;
    }
    QsortRange(objects, 0, objects.Length - 1);
    assert objects[..][0..objects.Length - 1 + 1] == objects[..];
    assert old(objects[..])[0..objects.Length - 1 + 1] == old(objects[..]);
  }

  // ---- Suppression ----

  function RectArea(r: Rect): real {
    r.width * r.height
  }

  /** The common part of two rectangles; an empty rectangle when there is none. */
  function Common(a: Rect, b: Rect): Rect {
    var x, y := Max(a.x, b.x), Max(a.y, b.y);
    var w, h := Min(a.x + a.width, b.x + b.width) - x, Min(a.y + a.height, b.y + b.height) - y;
    if w <= 0.0 || h <= 0.0 then Rect(0.0, 0.0, 0.0, 0.0) else Rect(x, y, w, h)
  }

  /**
   * Whether the overlap quotient is above the threshold. Two empty areas give the quotient 0/0,
   * which no comparison finds above anything; a positive part of an empty union is infinite.
   */
  predicate Above(common: real, union: real, threshold: real) {
    if union == 0.0 then common > 0.0 else common / union > threshold
  }

  predicate Overlaps(a: Object, b: Object, threshold: real) {
    var common := RectArea(Common(a.rect, b.rect));
    Above(common, RectArea(a.rect) + RectArea(b.rect) - common, threshold)
  }

  lemma CommonSymmetric(a: Rect, b: Rect)
    ensures Common(a, b) == Common(b, a)
  {
  }

  lemma OverlapsSymmetric(a: Object, b: Object, threshold: real)
    ensures Overlaps(a, b, threshold) == Overlaps(b, a, threshold)
  {
    hide Common, Above, RectArea;
    CommonSymmetric(a.rect, b.rect);
  }

  ghost predicate Inside(r: Rect, a: Rect) {
    a.x <= r.x && r.x + r.width <= a.x + a.width && a.y <= r.y && r.y + r.height <= a.y + a.height
  }

  /** The common part is the greatest rectangle inside both. */
  lemma CommonIsGreatest(a: Rect, b: Rect, r: Rect)
    requires r.width > 0.0 && r.height > 0.0
    ensures Inside(r, a) && Inside(r, b) <==> Inside(r, Common(a, b))
  {
  }

  /** A quotient by a positive number is above a threshold exactly if its numerator is above the multiple. */
  lemma QuotientAbove(c: real, u: real, threshold: real)
    requires u > 0.0
    ensures c / u > threshold <==> c > threshold * u
  {
    var q := c / u;
    assert q * u == c;
    var d := q - threshold;
    assert d * u == c - threshold * u;
    if d > 0.0 {
      assert d * u > 0.0;
    } else {
      assert d * u <= 0.0;
    }
  }

  /** A rectangle with whole corners, as pixels; its far row and column do not belong to it. */
  datatype Block = Block(x: int, y: int, width: nat, height: nat) {
    function Pixels(): set<Pixel> { Grid(x, y, x + width, y + height) }

    function AsRect(): Rect { Rect(x as real, y as real, width as real, height as real) }
  }

  lemma BlockArea(a: Block)
    ensures RectArea(a.AsRect()) == |a.Pixels()| as real
  {
    hide Grid;
    GridSize(a.x, a.y, a.x + a.width, a.y + a.height);
    assert Length(a.x, a.x + a.width) == a.width && Length(a.y, a.y + a.height) == a.height;
    RealProduct(a.width, a.height);
  }

  lemma CommonSide(x: int, w: nat, x': int, w': nat)
    ensures Min(x as real + w as real, x' as real + w' as real) - Max(x as real, x' as real)
            == (Smaller(x + w, x' + w') - Larger(x, x')) as real
  {
  }

  /** The common part of two blocks has as many pixels as they have in common. */
  lemma CommonArea(a: Block, b: Block)
    ensures RectArea(Common(a.AsRect(), b.AsRect())) == |a.Pixels() * b.Pixels()| as real
    ensures |a.Pixels() + b.Pixels()| == |a.Pixels()| + |b.Pixels()| - |a.Pixels() * b.Pixels()|
  {
    hide Grid, Larger, Smaller, Min, Max;
    MeetAndJoin(a.x, a.y, a.x + a.width, a.y + a.height, b.x, b.y, b.x + b.width, b.y + b.height);
    CommonPixels(a.Pixels(), b.Pixels());
    CommonSide(a.x, a.width, b.x, b.width);
    CommonSide(a.y, a.height, b.y, b.height);
    var w := Smaller(a.x + a.width, b.x + b.width) - Larger(a.x, b.x);
    var h := Smaller(a.y + a.height, b.y + b.height) - Larger(a.y, b.y);
    if w > 0 && h > 0 {
      RealProduct(w, h);
    } else {
      NoProduct(Length(Larger(a.x, b.x), Smaller(a.x + a.width, b.x + b.width)),
                Length(Larger(a.y, b.y), Smaller(a.y + a.height, b.y + b.height)));
    }
  }

  /** On the pixel grid the quotient is the number of pixels of both over the number of pixels of either. */
  lemma OverlapsCountsPixels(a: Block, b: Block, p: real, q: real, threshold: real)
    ensures Overlaps(Object(a.AsRect(), p), Object(b.AsRect(), q), threshold)
            <==> |a.Pixels() * b.Pixels()| as real > threshold * |a.Pixels() + b.Pixels()| as real
  {
    hide RectArea, Common, Grid;
    BlockArea(a);
    BlockArea(b);
    CommonArea(a, b);
    var both, either := |a.Pixels() * b.Pixels()|, |a.Pixels() + b.Pixels()|;
    if either > 0 {
      QuotientAbove(both as real, either as real, threshold);
    } else {
      assert a.Pixels() == {};
    }
  }

  /** A rectangle inside another overlaps it above the threshold exactly if it covers a greater share of it. */
  lemma InnerOverlap(a: Object, b: Object, threshold: real)
    requires a.rect.width > 0.0 && a.rect.height > 0.0 && Inside(a.rect, b.rect)
    ensures Overlaps(a, b, threshold)
            <==> a.rect.width * a.rect.height > threshold * (b.rect.width * b.rect.height)
  {
    assert Common(a.rect, b.rect) == a.rect;
    PositiveArea(b.rect);
    QuotientAbove(RectArea(a.rect), RectArea(b.rect), threshold);
  }

  lemma PositiveArea(r: Rect)
    requires r.width > 0.0 && r.height > 0.0
    ensures RectArea(r) > 0.0
  {
  }

  /** Rectangles without a common point never overlap, at any threshold of at least 0. */
  lemma ApartNeverOverlap(a: Object, b: Object, threshold: real)
    requires threshold >= 0.0
    requires forall r: Rect :: r.width > 0.0 && r.height > 0.0 ==> !(Inside(r, a.rect) && Inside(r, b.rect))
    ensures !Overlaps(a, b, threshold)
  {
    var c := Common(a.rect, b.rect);
    if c.width > 0.0 && c.height > 0.0 {
      assert Inside(c, c);
      CommonIsGreatest(a.rect, b.rect, c);
    }
  }

  /** No kept object in front of object i overlaps it too much. */
  ghost predicate Clear(objects: seq<Object>, picked: seq<int>, i: int, threshold: real)
    requires 0 <= i < |objects|
  {
    forall k :: k in picked && 0 <= k < i ==> !Overlaps(objects[i], objects[k], threshold)
  }

  /** The greedy choice among the first n objects: one is kept exactly when nothing kept before it stands in its way. */
  ghost predicate Greedy(objects: seq<Object>, picked: seq<int>, n: nat, threshold: real)
    requires n <= |objects|
  {
    && Ascending(picked)
    && (forall k :: k in picked ==> 0 <= k < n)
    && (forall i :: 0 <= i < n ==> (i in picked <==> Clear(objects, picked, i, threshold)))
  }

  /** There is only one greedy choice. */
  lemma {:induction false} GreedyMembers(objects: seq<Object>, a: seq<int>, b: seq<int>, n: nat, m: nat,
                                         threshold: real)
    requires m <= n <= |objects| && Greedy(objects, a, n, threshold) && Greedy(objects, b, n, threshold)
    ensures forall i :: 0 <= i < m ==> (i in a <==> i in b)
    decreases m
  {
    if m > 0 {
      GreedyMembers(objects, a, b, n, m - 1, threshold);
      assert Clear(objects, a, m - 1, threshold) == Clear(objects, b, m - 1, threshold);
    }
  }

  lemma {:induction false} AscendingUnique(a: seq<int>, b: seq<int>)
    requires Ascending(a) && Ascending(b) && forall k :: k in a <==> k in b
    ensures a == b
  {
    assert (b == [] || b[0] in b) && (a == [] || a[0] in a);
    if a != [] {
      var x, y := a[|a| - 1], b[|b| - 1];
      assert x in b && y in a;
      assert x == y;
      var a', b' := a[..|a| - 1], b[..|b| - 1];
      forall k
        ensures k in a' <==> k in b'
      {
        assert k in a' <==> k in a && k != x;
        assert k in b' <==> k in b && k != y;
      }
      AscendingUnique(a', b');
      assert a == a' + [x] && b == b' + [y];
    }
  }

  lemma GreedyUnique(objects: seq<Object>, a: seq<int>, b: seq<int>, threshold: real)
    requires Greedy(objects, a, |objects|, threshold) && Greedy(objects, b, |objects|, threshold)
    ensures a == b
  {
    GreedyMembers(objects, a, b, |objects|, |objects|, threshold);
    AscendingUnique(a, b);
  }

  /** Kept objects overlap each other little; a rejected one overlaps a kept one of at least its score too much. */
  lemma GreedyMeaning(objects: seq<Object>, picked: seq<int>, threshold: real)
    requires Descending(objects) && Greedy(objects, picked, |objects|, threshold)
    ensures forall i, k :: i in picked && k in picked && i != k ==> !Overlaps(objects[i], objects[k], threshold)
    ensures forall i :: 0 <= i < |objects| && i !in picked ==>
              exists k ::
                k in picked && Overlaps(objects[i], objects[k], threshold) && objects[k].prob >= objects[i].prob
  {
    hide Overlaps;
    forall i, k | i in picked && k in picked && i != k
      ensures !Overlaps(objects[i], objects[k], threshold)
    {
      OverlapsSymmetric(objects[i], objects[k], threshold);
      assert Clear(objects, picked, i, threshold) && Clear(objects, picked, k, threshold);
    }
    forall i | 0 <= i < |objects| && i !in picked
      ensures exists k ::
                k in picked && Overlaps(objects[i], objects[k], threshold) && objects[k].prob >= objects[i].prob
    {
      assert !Clear(objects, picked, i, threshold);
    }
  }

  lemma GreedyNothing(objects: seq<Object>, threshold: real)
    ensures Greedy(objects, [], 0, threshold)
  {
  }

  lemma GreedyRange(objects: seq<Object>, picked: seq<int>, n: nat, threshold: real)
    requires n <= |objects| && Greedy(objects, picked, n, threshold)
    ensures forall j :: 0 <= j < |picked| ==> 0 <= picked[j] < n
  {
    hide Clear;
    assert forall j :: 0 <= j < |picked| ==> picked[j] in picked;
  }

  method NmsSortedBboxes(objects: seq<Object>, threshold: real) returns (picked: seq<int>)
    ensures Greedy(objects, picked, |objects|, threshold)
  {
    hide Overlaps, RectArea, Greedy, Clear;
    picked := [];
    var n := |objects|;
    var areas := new real[n];
    var i := 0;
    while i < n
      invariant 0 <= i <= n && forall k :: 0 <= k < i ==> areas[k] == RectArea(objects[k].rect)
    {
      areas[i] := RectArea(objects[i].rect);
      i := i + 1;
    }
    i := 0;
    GreedyNothing(objects, threshold);
    while i < n
      invariant 0 <= i <= n && Greedy(objects, picked, i, threshold)
      invariant forall k :: 0 <= k < n ==> areas[k] == RectArea(objects[k].rect)
    {
      GreedyRange(objects, picked, i, threshold);
      var keep := KeepObject(objects, areas, picked, i, threshold);
      GreedyStep(objects, picked, i, threshold, keep);
      if keep {
        picked := picked + [i];
      }
      i := i + 1;
    }
  }

  /** The inner loop: object i against everything kept so far. */
  method KeepObject(objects: seq<Object>, areas: array<real>, picked: seq<int>, i: nat, threshold: real)
    returns (keep: bool)
    requires i < |objects| == areas.Length && forall k :: 0 <= k < |objects| ==> areas[k] == RectArea(objects[k].rect)
    requires forall j :: 0 <= j < |picked| ==> 0 <= picked[j] < i
    ensures keep == Clear(objects, picked, i, threshold)
  {
    hide Common, Above, RectArea;
    keep := true;
    var j := 0;
    while j < |picked|
      invariant 0 <= j <= |picked|
      invariant keep == forall k :: 0 <= k < j ==> !Overlaps(objects[i], objects[picked[k]], threshold)
    {
      var common := RectArea(Common(objects[i].rect, objects[picked[j]].rect));
      var union := areas[i] + areas[picked[j]] - common;
      assert Above(common, union, threshold) == Overlaps(objects[i], objects[picked[j]], threshold);
      if Above(common, union, threshold) {
        keep := false;
      }
      j := j + 1;
    }
  }

  lemma GreedyStep(objects: seq<Object>, picked: seq<int>, i: nat, threshold: real, keep: bool)
    requires i < |objects| && Greedy(objects, picked, i, threshold) && keep == Clear(objects, picked, i, threshold)
    ensures Greedy(objects, if keep then picked + [i] else picked, i + 1, threshold)
  {
    hide Overlaps;
    var after := if keep then picked + [i] else picked;
    assert forall k :: k in after <==> k in picked || (keep && k == i);
    assert Ascending(after) by {
      assert forall j :: 0 <= j < |picked| ==> picked[j] in picked;
    }
    forall j | 0 <= j < i + 1
      ensures j in after <==> Clear(objects, after, j, threshold)
    {
      assert Clear(objects, after, j, threshold) == Clear(objects, picked, j, threshold);
    }
  }

  /** The two stages together: what remains of the sorted proposals. */
  method SortAndSuppress(proposals: array<Object>, threshold: real) returns (picked: seq<int>)
    modifies proposals
    ensures multiset(proposals[..]) == multiset(old(proposals[..])) && Descending(proposals[..])
    ensures Greedy(proposals[..], picked, proposals.Length, threshold)
  {
    QsortDescentInplace(proposals);
    picked := NmsSortedBboxes(proposals[..], threshold);
  }
}
