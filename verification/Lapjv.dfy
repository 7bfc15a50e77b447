/** The Jonker-Volgenant solver: augmentation along shortest paths, and the whole algorithm. */
module Lapjv {
  import opened Permutations
  import opened Assignment
  import opened ColumnReduction
  import opened RowReduction
  import opened ShortestPath
  import opened PathSearch

  method UpdatePrices(v: array<real>, d: array<real>, cols: array<int>, n_ready: nat, mind: real)
    requires v != d && v.Length == d.Length == cols.Length && IsPermutation(cols[..], v.Length) && n_ready <= v.Length
    modifies v
    ensures Repriced(old(v[..]), v[..], cols[..], d[..], n_ready, mind)
  {
    for k := 0 to n_ready
      invariant forall m :: 0 <= m < k ==> v[cols[m]] == old(v[cols[m]]) + (d[cols[m]] - mind)
      invariant forall m :: k <= m < v.Length ==> v[cols[m]] == old(v[cols[m]])
    {
      var j := cols[k];
      v[j] := v[j] + (d[j] - mind);
    }
  }

  /** `find_path_dense`: the nearest free column, the path to it, and prices making the path tight. */
  method FindPathDense(c: Matrix, start_i: nat, y: array<int>, v: array<real>, pred: array<int>)
    returns (final_j: int, ghost path: seq<int>)
    requires y.Length == v.Length == pred.Length == |c| && y != pred && start_i < |c|
    requires Tight(c, v[..], y[..])
    requires exists j :: 0 <= j < |c| && y[j] < 0
    modifies v, pred
    ensures 0 <= final_j < |c| && y[final_j] < 0
    ensures Tight(c, v[..], y[..])
    ensures Path(y[..], pred[..], start_i, path) && path[0] == final_j && PathTight(c, v[..], pred[..], path)
  {
    var cols, d, par := StartSearch(c, start_i, y, v, pred);
    var lo, n_ready := 0, 0;
    ghost var s, v0 := 0, v[..];
    final_j := -1;
    while final_j == -1
      invariant v[..] == v0
      invariant final_j == -1 ==> Settled(c, y[..], v[..], start_i, cols[..], d[..], pred[..], par, lo)
      invariant final_j != -1 ==> n_ready == lo < |c| && lo <= s && 0 <= cols[lo] < |c|
      invariant final_j != -1 ==> Found(c, y[..], v[..], start_i, cols[..], d[..], pred[..], par, lo, s, d[cols[lo]],
                                        final_j)
      decreases |c| - lo, final_j == -1
    {
      UnsettledLeft(c, y[..], v[..], start_i, cols[..], d[..], pred[..], par, lo);
      n_ready := lo;
      final_j, lo, par, s := SearchLevel(c, y, v, d, cols, pred, lo, start_i, par);
    }
    var mind := d[cols[lo]];
    UpdatePrices(v, d, cols, n_ready, mind);
    path := TightPath(c, y[..], v0, v[..], start_i, cols[..], d[..], pred[..], par, lo, s, mind, final_j);
  }

  /** The path found by the search, with the prices it leaves. */
  lemma TightPath(c: Matrix, y: seq<int>, v: seq<real>, w: seq<real>, start: int, cols: seq<int>, d: seq<real>,
                  pred: seq<int>, par: seq<int>, ready: nat, s: nat, mu: real, j: int)
    returns (path: seq<int>)
    requires Found(c, y, v, start, cols, d, pred, par, ready, s, mu, j) && Tight(c, v, y) && |w| == |c|
    requires Repriced(v, w, cols, d, ready, mu)
    ensures Tight(c, w, y) && Path(y, pred, start, path) && path[0] == j && PathTight(c, w, pred, path)
  {
    RepricedTight(c, y, v, w, start, cols, d, ready, s, mu);
    PermutationCovers(cols, |c|, j);
    var m :| 0 <= m < |c| && cols[m] == j;
    TrailIsPath(c, y, v, w, start, cols, d, pred, par, ready, s, mu, m);
    path := Trail(cols, par, s, m);
  }

  /** The rows that change hands along a path: row `k` gets column `path[k]`. */
  ghost function Takers(pred: seq<int>, path: seq<int>): (rows: seq<int>)
    requires Within(path, |pred|)
    ensures |rows| == |path| && forall k :: 0 <= k < |path| ==> rows[k] == pred[path[k]]
  {
    if path == [] then [] else Takers(pred, path[..|path| - 1]) + [pred[path[|path| - 1]]]
  }

  lemma TakersDistinct(x: seq<int>, y: seq<int>, pred: seq<int>, start: int, path: seq<int>)
    requires Matching(x, y, |pred|) && Path(y, pred, start, path) && !Matched(x, y, start)
    ensures Distinct(Takers(pred, path)) && Within(Takers(pred, path), |pred|)
    ensures forall k :: 0 <= k < |path| - 1 ==> x[Takers(pred, path)[k]] == path[k + 1]
    ensures forall k :: 0 <= k < |path| ==> (Takers(pred, path)[k] == start <==> k == |path| - 1)
  {
    var rows := Takers(pred, path);
    forall k | 0 <= k < |path| - 1
      ensures x[rows[k]] == path[k + 1] && rows[k] != start && Matched(x, y, rows[k])
    {
      assert rows[k] == y[path[k + 1]];
    }
  }

  /** The first `t` columns of the path have changed hands. */
  ghost predicate Flipped(x0: seq<int>, y0: seq<int>, rows: seq<int>, path: seq<int>, t: nat, x: seq<int>, y: seq<int>)
    requires |x0| == |y0| == |x| == |y| && |rows| == |path| && Within(rows, |x|) && Within(path, |x|)
  {
    && (forall k :: 0 <= k < t && k < |path| ==> y[path[k]] == rows[k] && x[rows[k]] == path[k])
    && (forall k :: t <= k < |path| ==> y[path[k]] == y0[path[k]] && x[rows[k]] == x0[rows[k]])
    && (forall j :: 0 <= j < |y| && j !in path ==> y[j] == y0[j])
    && (forall i :: 0 <= i < |x| && i !in rows ==> x[i] == x0[i])
  }

  lemma FlipNext(x0: seq<int>, y0: seq<int>, rows: seq<int>, path: seq<int>, t: nat, x: seq<int>, y: seq<int>)
    requires |x0| == |y0| == |x| == |y| && |rows| == |path| && Within(rows, |x|) && Within(path, |x|)
    requires Distinct(rows) && Distinct(path) && t < |path| && Flipped(x0, y0, rows, path, t, x, y)
    ensures Flipped(x0, y0, rows, path, t + 1, x[rows[t] := path[t]], y[path[t] := rows[t]])
  {
  }

  /** A row whose column is off the path is not one of those changing hands. */
  lemma OffPath(x: seq<int>, y: seq<int>, pred: seq<int>, start: int, path: seq<int>, j: int)
    requires Matching(x, y, |pred|) && Path(y, pred, start, path) && !Matched(x, y, start)
    requires 0 <= j < |pred| && j !in path && y[j] >= 0
    ensures y[j] !in Takers(pred, path)
  {
    TakersDistinct(x, y, pred, start, path);
    assert x[y[j]] == j;
  }

  lemma FlipMatching(x0: seq<int>, y0: seq<int>, pred: seq<int>, start: int, path: seq<int>, x: seq<int>, y: seq<int>)
    requires |x| == |y| == |pred|
    requires Matching(x0, y0, |pred|) && Path(y0, pred, start, path) && !Matched(x0, y0, start)
    requires Within(Takers(pred, path), |pred|)
    requires Flipped(x0, y0, Takers(pred, path), path, |path|, x, y)
    ensures Matching(x, y, |pred|)
  {
    forall j | 0 <= j < |pred|
      ensures -1 <= y[j] < |pred| && (y[j] >= 0 ==> x[y[j]] == j)
    {
      if j in path {
        var k :| 0 <= k < |path| && path[k] == j;
      } else if y0[j] >= 0 {
        OffPath(x0, y0, pred, start, path, j);
      }
    }
  }

  lemma OffTakers(x0: seq<int>, y0: seq<int>, pred: seq<int>, start: int, path: seq<int>, x: seq<int>,
                  y: seq<int>, r: int)
    requires |x0| == |y0| == |x| == |y| == |pred| && 0 <= r < |pred|
    requires Path(y0, pred, start, path) && y0[path[0]] < 0
    requires Within(Takers(pred, path), |pred|) && r !in Takers(pred, path)
    requires Flipped(x0, y0, Takers(pred, path), path, |path|, x, y)
    ensures r != start && (Matched(x, y, r) <==> Matched(x0, y0, r))
  {
    var rows := Takers(pred, path);
    assert rows[|path| - 1] == start;
    if 0 <= x0[r] < |pred| && x0[r] in path {
      var k :| 0 <= k < |path| && path[k] == x0[r];
      assert k > 0 ==> rows[k - 1] == y0[path[k]];
    }
  }

  /** Flipping a whole path matches the start row; no other row changes its status. */
  lemma FlipStatus(x0: seq<int>, y0: seq<int>, pred: seq<int>, start: int, path: seq<int>, x: seq<int>,
                   y: seq<int>, r: int)
    requires |x| == |y| == |pred| && 0 <= r < |pred|
    requires Matching(x0, y0, |pred|) && Path(y0, pred, start, path) && !Matched(x0, y0, start) && y0[path[0]] < 0
    requires Within(Takers(pred, path), |pred|)
    requires Flipped(x0, y0, Takers(pred, path), path, |path|, x, y)
    ensures Matched(x, y, r) <==> r == start || Matched(x0, y0, r)
  {
    if r in Takers(pred, path) {
      var k :| 0 <= k < |path| && Takers(pred, path)[k] == r;
      assert k < |path| - 1 ==> r == y0[path[k + 1]] && x0[r] == path[k + 1];
    } else {
      OffTakers(x0, y0, pred, start, path, x, y, r);
    }
  }

  lemma FlipTight(c: Matrix, v: seq<real>, x0: seq<int>, y0: seq<int>, pred: seq<int>, path: seq<int>,
                  x: seq<int>, y: seq<int>)
    requires Tight(c, v, y0) && |x| == |x0| == |y| == |pred| == |c| && Within(path, |c|)
    requires Within(Takers(pred, path), |c|)
    requires PathTight(c, v, pred, path)
    requires Flipped(x0, y0, Takers(pred, path), path, |path|, x, y)
    ensures Tight(c, v, y)
  {
  }

  /** The inner loop of `_ca_dense`: every row on the path takes the column that led to it. */
  method Augment(start: nat, final_j: nat, pred: array<int>, x: array<int>, y: array<int>, ghost path: seq<int>)
    requires x.Length == y.Length == pred.Length && x != y && pred != x && pred != y && start < x.Length
    requires Matching(x[..], y[..], x.Length) && !Matched(x[..], y[..], start)
    requires Path(y[..], pred[..], start, path) && path[0] == final_j
    requires Within(Takers(pred[..], path), x.Length)
    modifies x, y
    ensures Flipped(old(x[..]), old(y[..]), Takers(pred[..], path), path, |path|, x[..], y[..])
  {
    ghost var t, x0, y0, rows := 0, x[..], y[..], Takers(pred[..], path);
    TakersDistinct(x0, y0, pred[..], start, path);
    var i, j := -1, final_j;
    while i != start
      invariant t <= |path| && Flipped(x0, y0, rows, path, t, x[..], y[..])
      invariant t < |path| ==> j == path[t]
      invariant i == if t == 0 then -1 else rows[t - 1]
      decreases |path| - t
    {
      FlipNext(x0, y0, rows, path, t, x[..], y[..]);
      ghost var xt, yt := x[..], y[..];
      i := pred[j];
      y[j] := i;
      assert x[i] == xt[rows[t]] == x0[rows[t]];
      j, x[i] := x[i], j;
      assert x[..] == xt[rows[t] := path[t]] && y[..] == yt[path[t] := rows[t]];
      t := t + 1;
    }
  }

  /** One round of `_ca_dense`: the free row `start` is matched, no other row changes its status. */
  method AugmentRow(c: Matrix, start: nat, pred: array<int>, x: array<int>, y: array<int>, v: array<real>)
    requires x.Length == y.Length == pred.Length == v.Length == |c| && x != y && pred != x && pred != y
    requires start < |c| && Matching(x[..], y[..], |c|) && Tight(c, v[..], y[..]) && !Matched(x[..], y[..], start)
    modifies x, y, v, pred
    ensures Matching(x[..], y[..], |c|) && Tight(c, v[..], y[..])
    ensures forall r :: 0 <= r < |c| ==> (Matched(x[..], y[..], r) <==> r == start || old(Matched(x[..], y[..], r)))
  {
    hide Tight;
    FreeColumnExists(x[..], y[..], |c|, start);
    ghost var x0, y0 := x[..], y[..];
    var j, path := FindPathDense(c, start, y, v, pred);
    assert x[..] == x0 && y[..] == y0;
    TakersDistinct(x0, y0, pred[..], start, path);
    Augment(start, j, pred, x, y, path);
    FlipMatching(x0, y0, pred[..], start, path, x[..], y[..]);
    forall r | 0 <= r < |c|
      ensures Matched(x[..], y[..], r) <==> r == start || Matched(x0, y0, r)
    {
      FlipStatus(x0, y0, pred[..], start, path, x[..], y[..], r);
    }
    FlipTight(c, v[..], x0, y0, pred[..], path, x[..], y[..]);
  }

  /** `_ca_dense`: matches the listed free rows one by one. */
  method CaDense(c: Matrix, n_free_rows: nat, free_rows: array<int>, x: array<int>, y: array<int>, v: array<real>)
    returns (ret: int)
    requires free_rows.Length == x.Length == y.Length == v.Length == |c| && n_free_rows <= |c|
    requires x != y && free_rows != x && free_rows != y
    requires Matching(x[..], y[..], |c|) && Tight(c, v[..], y[..])
    requires FreeRows(free_rows[..n_free_rows], x[..], y[..])
    modifies x, y, v
    ensures ret == 0
    ensures Matching(x[..], y[..], |c|) && Tight(c, v[..], y[..]) && Complete(x[..], y[..])
  {
    ret := 0;
    var pred := new int[|c|];
    for p := 0 to n_free_rows
      invariant free_rows[..] == old(free_rows[..])
      invariant Matching(x[..], y[..], |c|) && Tight(c, v[..], y[..])
      invariant FreeRows(free_rows[p..n_free_rows], x[..], y[..])
    {
      ghost var rest := free_rows[p..n_free_rows];
      assert rest[0] == free_rows[p] && rest[0] in rest;
      assert free_rows[p + 1..n_free_rows] == rest[1..];
      AugmentRow(c, free_rows[p], pred, x, y, v);
      assert free_rows[p + 1..n_free_rows] == rest[1..];
    }
    assert free_rows[n_free_rows..n_free_rows] == [];
    NoFreeRows(x[..], y[..]);
  }

  lemma NoFreeRows(x: seq<int>, y: seq<int>)
    requires FreeRows([], x, y)
    ensures Complete(x, y)
  {
    forall i | 0 <= i < |x|
      ensures 0 <= x[i] < |y| && y[x[i]] == i
    {
      assert i !in [];
      assert Matched(x, y, i);
    }
  }

  /** `lapjv_internal`: `x` and `y` become inverse permutations of least total cost. */
  method LapjvInternal(c: Matrix, x: array<int>, y: array<int>, ghost lo: real, ghost hi: real) returns (ret: int)
    requires |c| > 0 && CostsIn(c, lo, hi) && hi < 1000000.0 && 2.0 * (hi - lo) < 1000000.0
    requires x.Length == y.Length == |c| && x != y
    modifies x, y
    ensures ret == 0
    ensures IsPermutation(x[..], |c|) && IsPermutation(y[..], |c|)
    ensures forall i :: 0 <= i < |c| ==> y[x[i]] == i
    ensures forall j :: 0 <= j < |c| ==> x[y[j]] == j
    ensures Cheapest(c, x[..])
  {
    hide FreeRows, Matching, Tight, Priced, Complete, Cheapest;
    var n := |c|;
    var free_rows := new int[n];
    var v := new real[n];
    var n_free := CcrrtDense(c, free_rows, x, y, v, lo);
    var i := 0;
    while n_free > 0 && i < 2
      invariant n_free <= n && Partial(c, free_rows[..n_free], x[..], y[..], v[..], lo)
    {
      var passes;
      n_free, passes := CarrDense(c, n_free, free_rows, x, y, v, lo, hi);
      i := i + 1;
    }
    ret := n_free;
    if n_free > 0 {
      ret := CaDense(c, n_free, free_rows, x, y, v);
    } else {
      assert free_rows[..n_free] == [];
      NoFreeRows(x[..], y[..]);
    }
    TightIsCheapest(c, v[..], x[..], y[..]);
  }
}
