/** Boxes on the pixel grid: the overlap measures of tracker and detector count pixels. */
module Pixels {
  import opened Iou

  datatype Pixel = Pixel(x: int, y: int)

  /** The numbers from `a` up to, not including, `b`. */
  function Span(a: int, b: int): (s: set<int>)
    ensures forall x :: x in s <==> a <= x < b
    decreases if a < b then b - a else 0
  {
    if a < b then Span(a, b - 1) + {b - 1} else {}
  }

  /** The pixels of columns `x1` up to, not including, `x2`, and rows `y1` up to `y2` likewise. */
  function Grid(x1: int, y1: int, x2: int, y2: int): (s: set<Pixel>) {
    set x, y | x in Span(x1, x2) && y in Span(y1, y2) :: Pixel(x, y)
  }

  function Length(a: int, b: int): nat { if a < b then b - a else 0 }

  /** One column of the grid. */
  lemma {:induction false} ColumnSize(x: int, y1: int, y2: int)
    ensures |Grid(x, y1, x + 1, y2)| == Length(y1, y2)
    decreases Length(y1, y2)
  {
    if y1 < y2 {
      ColumnSize(x, y1, y2 - 1);
      assert Grid(x, y1, x + 1, y2) == Grid(x, y1, x + 1, y2 - 1) + {Pixel(x, y2 - 1)};
    } else {
      assert Grid(x, y1, x + 1, y2) == {};
    }
  }

  lemma LastColumn(x1: int, y1: int, x2: int, y2: int)
    requires x1 < x2
    ensures Grid(x1, y1, x2, y2) == Grid(x1, y1, x2 - 1, y2) + Grid(x2 - 1, y1, x2, y2)
    ensures Grid(x1, y1, x2 - 1, y2) !! Grid(x2 - 1, y1, x2, y2)
  {
  }

  lemma OneMore(n: nat, m: nat)
    requires n > 0
    ensures n * m == (n - 1) * m + m
  {
  }

  lemma {:induction false} GridSize(x1: int, y1: int, x2: int, y2: int)
    ensures |Grid(x1, y1, x2, y2)| == Length(x1, x2) * Length(y1, y2)
    decreases Length(x1, x2)
  {
    if x1 < x2 {
      GridSize(x1, y1, x2 - 1, y2);
      ColumnSize(x2 - 1, y1, y2);
      LastColumn(x1, y1, x2, y2);
      OneMore(Length(x1, x2), Length(y1, y2));
    } else {
      assert Grid(x1, y1, x2, y2) == {};
    }
  }

  function Larger(a: int, b: int): int { if a < b then b else a }

  function Smaller(a: int, b: int): int { if b < a then b else a }

  lemma CommonPixels(p: set<Pixel>, q: set<Pixel>)
    ensures |p + q| == |p| + |q| - |p * q|
  {
  }

  lemma GridMeet(a: int, b: int, c: int, d: int, e: int, f: int, g: int, h: int)
    ensures Grid(a, b, c, d) * Grid(e, f, g, h) == Grid(Larger(a, e), Larger(b, f), Smaller(c, g), Smaller(d, h))
  {
  }

  /** The pixels two grids have in common, and those of either. */
  lemma MeetAndJoin(a: int, b: int, c: int, d: int, e: int, f: int, g: int, h: int)
    ensures var p, q := Grid(a, b, c, d), Grid(e, f, g, h);
            && |p * q| == Length(Larger(a, e), Smaller(c, g)) * Length(Larger(b, f), Smaller(d, h))
            && |p + q| == Length(a, c) * Length(b, d) + Length(e, g) * Length(f, h) - |p * q|
  {
    hide Grid, Larger, Smaller, Length;
    var p, q := Grid(a, b, c, d), Grid(e, f, g, h);
    GridSize(a, b, c, d);
    GridSize(e, f, g, h);
    GridSize(Larger(a, e), Larger(b, f), Smaller(c, g), Smaller(d, h));
    GridMeet(a, b, c, d, e, f, g, h);
    CommonPixels(p, q);
  }

  // ----- the tracker's boxes

  /** A box with whole corners; its last row and column belong to it. */
  datatype Cells = Cells(x1: int, y1: int, x2: int, y2: int) {
    function Pixels(): set<Pixel> { Grid(x1, y1, x2 + 1, y2 + 1) }

    function AsBox(): Box { Box(x1 as real, y1 as real, x2 as real, y2 as real) }
  }

  lemma RealProduct(a: int, b: int)
    ensures (a * b) as real == a as real * b as real
  {
  }

  /** The sizes of boxes with whole corners are numbers of pixels. */
  lemma WholeSizes(a: Cells, b: Cells)
    ensures Area(a.AsBox()) == ((a.x2 + 1 - a.x1) * (a.y2 + 1 - a.y1)) as real
    ensures Width(a.AsBox(), b.AsBox()) == (Smaller(a.x2 + 1, b.x2 + 1) - Larger(a.x1, b.x1)) as real
    ensures Height(a.AsBox(), b.AsBox()) == (Smaller(a.y2 + 1, b.y2 + 1) - Larger(a.y1, b.y1)) as real
  {
    RealProduct(a.x2 + 1 - a.x1, a.y2 + 1 - a.y1);
  }

  lemma NoProduct(n: nat, m: nat)
    requires n == 0 || m == 0
    ensures n * m == 0
  {
  }

  lemma AreaCounts(a: Cells)
    requires a.x1 <= a.x2 + 1 && a.y1 <= a.y2 + 1
    ensures Area(a.AsBox()) == |a.Pixels()| as real
  {
    hide Grid;
    GridSize(a.x1, a.y1, a.x2 + 1, a.y2 + 1);
    WholeSizes(a, a);
    assert Length(a.x1, a.x2 + 1) == a.x2 + 1 - a.x1 && Length(a.y1, a.y2 + 1) == a.y2 + 1 - a.y1;
  }

  /** Boxes that overlap have no negative size. */
  lemma SizedByOverlap(a: Cells, b: Cells)
    requires Width(a.AsBox(), b.AsBox()) > 0.0 && Height(a.AsBox(), b.AsBox()) > 0.0
    ensures a.x1 < a.x2 + 1 && a.y1 < a.y2 + 1 && b.x1 < b.x2 + 1 && b.y1 < b.y2 + 1
  {
  }

  /** The overlap is the number of common pixels, if there is one. */
  lemma OverlapCounts(a: Cells, b: Cells)
    ensures var p, q, both := a.AsBox(), b.AsBox(), |a.Pixels() * b.Pixels()|;
            if Width(p, q) > 0.0 && Height(p, q) > 0.0 then Width(p, q) * Height(p, q) == both as real else both == 0
  {
    hide Grid, Larger, Smaller, Width, Height, Area;
    MeetAndJoin(a.x1, a.y1, a.x2 + 1, a.y2 + 1, b.x1, b.y1, b.x2 + 1, b.y2 + 1);
    WholeSizes(a, b);
    var w, h := Smaller(a.x2 + 1, b.x2 + 1) - Larger(a.x1, b.x1), Smaller(a.y2 + 1, b.y2 + 1) - Larger(a.y1, b.y1);
    if w > 0 && h > 0 {
      RealProduct(w, h);
    } else {
      NoProduct(Length(Larger(a.x1, b.x1), Smaller(a.x2 + 1, b.x2 + 1)),
                Length(Larger(a.y1, b.y1), Smaller(a.y2 + 1, b.y2 + 1)));
    }
  }

  /** The distance of two boxes is the share of their pixels that only one of them has. */
  lemma DistanceCountsPixels(a: Cells, b: Cells)
    ensures var both, either := a.Pixels() * b.Pixels(), a.Pixels() + b.Pixels();
            && (1.0 - Distance(a.AsBox(), b.AsBox())) * |either| as real == |both| as real
            && (either == {} ==> Distance(a.AsBox(), b.AsBox()) == 1.0)
  {
    hide Grid, Area, Width, Height;
    var p, q := a.AsBox(), b.AsBox();
    CommonPixels(a.Pixels(), b.Pixels());
    OverlapCounts(a, b);
    if Width(p, q) > 0.0 && Height(p, q) > 0.0 {
      SizedByOverlap(a, b);
      AreaCounts(a);
      AreaCounts(b);
      UnionCoversOverlap(p, q);
      ShareOf(Width(p, q) * Height(p, q), Area(p) + Area(q) - Width(p, q) * Height(p, q));
    }
  }
}
