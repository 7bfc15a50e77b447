/** Overlap of boxes: intersection over union, with the pixel-inclusive sizes of the tracker. */
module Iou {
  datatype Box = Box(x1: real, y1: real, x2: real, y2: real)

  function Min(a: real, b: real): real { if b < a then b else a }

  function Max(a: real, b: real): real { if a < b then b else a }

  function Area(b: Box): real { (b.x2 - b.x1 + 1.0) * (b.y2 - b.y1 + 1.0) }

  function Width(a: Box, b: Box): real { Min(a.x2, b.x2) - Max(a.x1, b.x1) + 1.0 }

  function Height(a: Box, b: Box): real { Min(a.y2, b.y2) - Max(a.y1, b.y1) + 1.0 }

  lemma ProductOrder(a: real, b: real, c: real, d: real)
    requires 0.0 <= a <= c && 0.0 <= b <= d
    ensures 0.0 <= a * b <= c * d
  {
    assert a * b <= c * b by { assert (c - a) * b >= 0.0; }
    assert c * b <= c * d by { assert c * (d - b) >= 0.0; }
  }

  /** Boxes that overlap are each at least as large as the overlap, whatever the order of their corners. */
  lemma OverlapBounded(a: Box, b: Box)
    requires Width(a, b) > 0.0 && Height(a, b) > 0.0
    ensures 0.0 < Width(a, b) * Height(a, b) <= Area(a)
  {
    var w, h := Width(a, b), Height(a, b);
    assert w * h > 0.0;
    ProductOrder(w, h, a.x2 - a.x1 + 1.0, a.y2 - a.y1 + 1.0);
  }

  lemma OverlapSymmetric(a: Box, b: Box)
    ensures Width(a, b) == Width(b, a) && Height(a, b) == Height(b, a)
  {
  }

  /** The share of `x` in `y`. */
  function Ratio(x: real, y: real): (r: real)
    requires 0.0 <= x <= y && 0.0 < y
    ensures 0.0 <= r <= 1.0
  {
    assert x / y * y == x;
    x / y
  }

  lemma UnionCoversOverlap(a: Box, b: Box)
    requires Width(a, b) > 0.0 && Height(a, b) > 0.0
    ensures 0.0 <= Width(a, b) * Height(a, b) <= Area(a) + Area(b) - Width(a, b) * Height(a, b)
    ensures 0.0 < Area(a) + Area(b) - Width(a, b) * Height(a, b)
  {
    OverlapSymmetric(a, b);
    OverlapBounded(a, b);
    OverlapBounded(b, a);
  }

  function IoU(a: Box, b: Box): (r: real)
    ensures 0.0 <= r <= 1.0
  {
    if Width(a, b) > 0.0 && Height(a, b) > 0.0 then
      UnionCoversOverlap(a, b);
      Ratio(Width(a, b) * Height(a, b), Area(a) + Area(b) - Width(a, b) * Height(a, b))
    else 0.0
  }

  function Distance(a: Box, b: Box): (d: real)
    ensures 0.0 <= d <= 1.0
  {
    1.0 - IoU(a, b)
  }

  // ----- what the distance means

  predicate Sized(b: Box) { b.x1 <= b.x2 && b.y1 <= b.y2 }

  /** Every point of `a` is one of `b`. */
  predicate Inside(a: Box, b: Box) {
    b.x1 <= a.x1 && a.x2 <= b.x2 && b.y1 <= a.y1 && a.y2 <= b.y2
  }

  lemma ShareOf(x: real, y: real)
    requires 0.0 <= x <= y && 0.0 < y
    ensures Ratio(x, y) * y == x
  {
  }

  /** A box inside another covers its share of it. */
  lemma InsideShare(a: Box, b: Box)
    requires Sized(a) && Inside(a, b)
    ensures (1.0 - Distance(a, b)) * ((b.x2 - b.x1 + 1.0) * (b.y2 - b.y1 + 1.0))
            == (a.x2 - a.x1 + 1.0) * (a.y2 - a.y1 + 1.0)
  {
    UnionCoversOverlap(a, b);
    ShareOf(Area(a), Area(b));
  }

  lemma DistanceSymmetric(a: Box, b: Box)
    ensures Distance(a, b) == Distance(b, a)
  {
    OverlapSymmetric(a, b);
  }

  /** A box has no distance to itself. */
  lemma SameBox(b: Box)
    requires Sized(b)
    ensures Distance(b, b) == 0.0
  {
    InsideShare(b, b);
    OverlapBounded(b, b);
    OnlyOne(1.0 - Distance(b, b), Area(b));
  }

  lemma OnlyOne(r: real, a: real)
    requires r * a == a && a != 0.0
    ensures r == 1.0
  {
    assert (r - 1.0) * a == 0.0;
  }

  /** The distance is 1 exactly for boxes a whole pixel apart, side by side or above each other. */
  lemma ApartExactly(a: Box, b: Box)
    ensures Distance(a, b) == 1.0 <==>
            Min(a.x2, b.x2) + 1.0 <= Max(a.x1, b.x1) || Min(a.y2, b.y2) + 1.0 <= Max(a.y1, b.y1)
  {
    if Width(a, b) > 0.0 && Height(a, b) > 0.0 {
      OverlapBounded(a, b);
      UnionCoversOverlap(a, b);
      ShareOf(Width(a, b) * Height(a, b), Area(a) + Area(b) - Width(a, b) * Height(a, b));
    }
  }

  /** `iou_distance`: the matrix of distances, or the empty matrix when either side is empty. */
  method IouDistance(xs: seq<Box>, ys: seq<Box>) returns (d: seq<seq<real>>)
    ensures |xs| == 0 || |ys| == 0 ==> d == []
    ensures |xs| > 0 && |ys| > 0 ==> |d| == |xs| && forall i :: 0 <= i < |xs| ==> |d[i]| == |ys|
    ensures forall i, j :: 0 <= i < |d| && 0 <= j < |ys| ==> d[i][j] == Distance(xs[i], ys[j])
  {
    d := [];
    if |xs| * |ys| == 0 {
      return;
    }
    for i := 0 to |xs|
      invariant |d| == i && forall k :: 0 <= k < i ==> |d[k]| == |ys|
      invariant forall k, j :: 0 <= k < i && 0 <= j < |ys| ==> d[k][j] == Distance(xs[k], ys[j])
    {
      var row := [];
      for j := 0 to |ys|
        invariant |row| == j && forall k :: 0 <= k < j ==> row[k] == Distance(xs[i], ys[k])
      {
        row := row + [1.0 - IoU(xs[i], ys[j])];
      }
      d := d + [row];
    }
  }
}
