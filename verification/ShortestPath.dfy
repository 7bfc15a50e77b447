/** Third phase of the Jonker-Volgenant solver, the search: shortest alternating paths. */
module ShortestPath {
  import opened Permutations
  import opened Assignment

  /** The reduced cost of row `i` at column `j`. */
  ghost function Red(c: Matrix, v: seq<real>, i: int, j: int): real
    requires Square(c) && |v| == |c| && 0 <= i < |c| && 0 <= j < |c|
  {
    c[i][j] - v[j]
  }

  /** The search has settled the first `s` columns of `cols`. `par[j]` is the position of the
      settled column whose row leads to `j`, or -1 when the start row does; `d[j]` is the length
      of that way. */
  ghost predicate Linked(c: Matrix, y: seq<int>, v: seq<real>, start: int,
                         cols: seq<int>, d: seq<real>, pred: seq<int>, par: seq<int>, s: nat)
  {
    && Square(c) && |c| == |y| == |v| == |d| == |pred| == |par| && 0 <= start < |c|
    && IsPermutation(cols, |c|) && s <= |c|
    && (forall k :: 0 <= k < s ==> 0 <= y[cols[k]] < |c|)
    && (forall k :: 0 <= k < s ==> par[cols[k]] < k)
    && (forall j :: 0 <= j < |c| ==> LinkedTo(c, y, v, start, cols, d, pred, par, s, j))
  }

  ghost predicate LinkedTo(c: Matrix, y: seq<int>, v: seq<real>, start: int,
                           cols: seq<int>, d: seq<real>, pred: seq<int>, par: seq<int>, s: nat, j: int)
    requires Square(c) && |c| == |y| == |v| == |d| == |pred| == |par| == |cols| && 0 <= start < |c|
    requires s <= |c| && 0 <= j < |c| && Within(cols, |c|)
  {
    && -1 <= par[j] < s
    && 0 <= pred[j] < |c|
    && if par[j] == -1 then pred[j] == start && d[j] == Red(c, v, start, j)
       else var q := cols[par[j]];
            pred[j] == y[q] && d[j] == d[q] + Red(c, v, pred[j], j) - Red(c, v, pred[j], q)
  }

  /** No way over the start row or one of the first `t` columns is shorter than noted. */
  ghost predicate Relaxed(c: Matrix, y: seq<int>, v: seq<real>, start: int, cols: seq<int>, d: seq<real>, t: nat)
    requires Square(c) && |c| == |y| == |v| == |d| == |cols| && 0 <= start < |c| && t <= |c| && Within(cols, |c|)
    requires forall k :: 0 <= k < t ==> 0 <= y[cols[k]] < |c|
  {
    && (forall j :: 0 <= j < |c| ==> d[j] <= Red(c, v, start, j))
    && (forall k, j :: 0 <= k < t && 0 <= j < |c| ==>
          d[j] <= d[cols[k]] + Red(c, v, y[cols[k]], j) - Red(c, v, y[cols[k]], cols[k]))
  }

  /** Positions below `ready` are at most `mu` away, those up to `hi` exactly, the rest no less. */
  ghost predicate Level(cols: seq<int>, d: seq<real>, ready: nat, hi: nat, mu: real)
    requires ready <= hi <= |cols| && Within(cols, |d|)
  {
    && (forall k :: 0 <= k < ready ==> d[cols[k]] <= mu)
    && (forall k :: ready <= k < hi ==> d[cols[k]] == mu)
    && (forall k :: hi <= k < |cols| ==> mu <= d[cols[k]])
  }

  ghost predicate StrictLevel(cols: seq<int>, d: seq<real>, ready: nat, hi: nat, mu: real)
    requires ready <= hi <= |cols| && Within(cols, |d|)
  {
    Level(cols, d, ready, hi, mu) && forall k :: hi <= k < |cols| ==> mu < d[cols[k]]
  }

  /** The prices after the search, lowered on the ready columns. */
  ghost predicate Repriced(v: seq<real>, w: seq<real>, cols: seq<int>, d: seq<real>, ready: nat, mu: real)
    requires |v| == |w| == |d| && ready <= |cols| && Within(cols, |v|)
  {
    && (forall k :: 0 <= k < ready ==> w[cols[k]] == v[cols[k]] + (d[cols[k]] - mu))
    && (forall k :: ready <= k < |cols| ==> w[cols[k]] == v[cols[k]])
  }

  /** An alternating path from the free column `path[0]` back to the row `start`. */
  ghost predicate Path(y: seq<int>, pred: seq<int>, start: int, path: seq<int>) {
    && |y| == |pred| && |path| > 0 && Within(path, |y|) && Distinct(path)
    && pred[path[|path| - 1]] == start
    && (forall k :: 0 <= k < |path| - 1 ==> pred[path[k]] == y[path[k + 1]])
    && (forall k :: 0 <= k < |path| ==> 0 <= pred[path[k]] < |y|)
    && (forall k :: 1 <= k < |path| ==> 0 <= y[path[k]])
  }

  /** Every row on the path finds its next column among its cheapest. */
  ghost predicate PathTight(c: Matrix, v: seq<real>, pred: seq<int>, path: seq<int>)
    requires Square(c) && |v| == |c| == |pred| && Within(path, |c|)
    requires forall k :: 0 <= k < |path| ==> 0 <= pred[path[k]] < |c|
  {
    forall k :: 0 <= k < |path| ==> RowMin(c, v, pred[path[k]], path[k])
  }

  lemma RowStaysTight(c: Matrix, y: seq<int>, v: seq<real>, w: seq<real>, start: int, cols: seq<int>,
                      d: seq<real>, ready: nat, hi: nat, mu: real, k: nat)
    requires Tight(c, v, y) && |w| == |d| == |c| && 0 <= start < |c| && k < |c| && ready <= hi <= |c|
    requires IsPermutation(cols, |c|) && 0 <= y[cols[k]]
    requires forall m :: 0 <= m < ready ==> 0 <= y[cols[m]] < |c|
    requires Relaxed(c, y, v, start, cols, d, ready) && Level(cols, d, ready, hi, mu)
    requires Repriced(v, w, cols, d, ready, mu)
    ensures RowMin(c, w, y[cols[k]], cols[k])
  {
    var i, q := y[cols[k]], cols[k];
    assert RowMin(c, v, i, q);
    forall j | 0 <= j < |c|
      ensures c[i][q] - w[q] <= c[i][j] - w[j]
    {
      PermutationCovers(cols, |c|, j);
      var m :| 0 <= m < |c| && cols[m] == j;
      assert c[i][q] - v[q] <= c[i][j] - v[j];
      if k < ready {
        assert d[j] <= d[q] + Red(c, v, i, j) - Red(c, v, i, q);
      }
    }
  }

  lemma StartStaysTight(c: Matrix, y: seq<int>, v: seq<real>, w: seq<real>, start: int, cols: seq<int>,
                        d: seq<real>, ready: nat, hi: nat, mu: real)
    requires Square(c) && |w| == |d| == |v| == |y| == |c| && 0 <= start < |c| && ready <= hi <= |c|
    requires IsPermutation(cols, |c|)
    requires forall m :: 0 <= m < ready ==> 0 <= y[cols[m]] < |c|
    requires Relaxed(c, y, v, start, cols, d, ready) && Level(cols, d, ready, hi, mu)
    requires Repriced(v, w, cols, d, ready, mu)
    ensures forall j :: 0 <= j < |c| ==> mu <= c[start][j] - w[j]
  {
    forall j | 0 <= j < |c|
      ensures mu <= c[start][j] - w[j]
    {
      PermutationCovers(cols, |c|, j);
      var m :| 0 <= m < |c| && cols[m] == j;
      assert d[j] <= Red(c, v, start, j);
    }
  }

  /** The price update keeps every assigned column tight. */
  lemma RepricedTight(c: Matrix, y: seq<int>, v: seq<real>, w: seq<real>, start: int, cols: seq<int>,
                      d: seq<real>, ready: nat, hi: nat, mu: real)
    requires Tight(c, v, y) && |w| == |d| == |c| && 0 <= start < |c| && ready <= hi <= |c|
    requires IsPermutation(cols, |c|)
    requires forall m :: 0 <= m < ready ==> 0 <= y[cols[m]] < |c|
    requires Relaxed(c, y, v, start, cols, d, ready) && Level(cols, d, ready, hi, mu)
    requires Repriced(v, w, cols, d, ready, mu)
    ensures Tight(c, w, y)
  {
    forall j | 0 <= j < |c| && y[j] >= 0
      ensures RowMin(c, w, y[j], j)
    {
      PermutationCovers(cols, |c|, j);
      var k :| 0 <= k < |c| && cols[k] == j;
      RowStaysTight(c, y, v, w, start, cols, d, ready, hi, mu, k);
    }
  }

  /** A link into a column at distance `mu`, or into a ready one, is tight after the price update. */
  lemma LinkTight(c: Matrix, y: seq<int>, v: seq<real>, w: seq<real>, start: int, cols: seq<int>,
                  d: seq<real>, pred: seq<int>, par: seq<int>, ready: nat, s: nat, mu: real, m: nat)
    requires Linked(c, y, v, start, cols, d, pred, par, s) && Tight(c, v, y) && Tight(c, w, y)
    requires ready <= s <= |c| && m < |c|
    requires Relaxed(c, y, v, start, cols, d, ready) && Level(cols, d, ready, s, mu)
    requires Repriced(v, w, cols, d, ready, mu)
    requires m < s || d[cols[m]] == mu
    ensures LinkedTo(c, y, v, start, cols, d, pred, par, s, cols[m]) && RowMin(c, w, pred[cols[m]], cols[m])
  {
    var j := cols[m];
    assert LinkedTo(c, y, v, start, cols, d, pred, par, s, j);
    if par[j] == -1 {
      StartStaysTight(c, y, v, w, start, cols, d, ready, s, mu);
    } else {
      var q := cols[par[j]];
      assert RowMin(c, w, y[q], q);
      assert c[pred[j]][j] - w[j] == c[pred[j]][q] - w[q];
    }
  }

  /** The columns met when following the links back from the column at position `m`. */
  ghost function Trail(cols: seq<int>, par: seq<int>, s: nat, m: nat): seq<int>
    requires m < |cols| && s <= |cols| && Within(cols, |par|)
    requires forall k :: 0 <= k < s ==> par[cols[k]] < k
    requires par[cols[m]] < s
    decreases if m < s then m else |cols|
  {
    [cols[m]] + if par[cols[m]] < 0 then [] else Trail(cols, par, s, par[cols[m]])
  }

  lemma {:induction false} TrailWithin(cols: seq<int>, par: seq<int>, s: nat, m: nat)
    requires m < |cols| && s <= |cols| && Within(cols, |par|) && Distinct(cols)
    requires forall k :: 0 <= k < s ==> par[cols[k]] < k
    requires par[cols[m]] < s && m < s
    ensures forall q :: q in Trail(cols, par, s, m) ==> q in cols[..m + 1]
  {
    var p := par[cols[m]];
    assert cols[m] == cols[..m + 1][m];
    if p >= 0 {
      TrailWithin(cols, par, s, p);
      assert cols[..p + 1] <= cols[..m + 1];
    }
  }

  lemma PathGrows(y: seq<int>, pred: seq<int>, start: int, j: int, path: seq<int>)
    requires Path(y, pred, start, path) && 0 <= j < |y| && j !in path
    requires pred[j] == y[path[0]] && 0 <= y[path[0]] < |y|
    ensures Path(y, pred, start, [j] + path)
  {
  }

  lemma TightAlone(c: Matrix, v: seq<real>, pred: seq<int>, j: int)
    requires Square(c) && |v| == |c| == |pred| && 0 <= j < |c| && 0 <= pred[j] < |c| && RowMin(c, v, pred[j], j)
    ensures PathTight(c, v, pred, [j])
  {
  }

  lemma TightPathGrows(c: Matrix, v: seq<real>, pred: seq<int>, j: int, path: seq<int>)
    requires Square(c) && |v| == |c| == |pred| && Within(path, |c|) && 0 <= j < |c| && 0 <= pred[j] < |c|
    requires forall k :: 0 <= k < |path| ==> 0 <= pred[path[k]] < |c|
    requires PathTight(c, v, pred, path) && RowMin(c, v, pred[j], j)
    ensures PathTight(c, v, pred, [j] + path)
  {
  }

  /** Following the links back is a path: no column repeats and it ends at the start row. */
  lemma {:induction false} TrailIsPath(
    c: Matrix, y: seq<int>, v: seq<real>, w: seq<real>, start: int, cols: seq<int>,
    d: seq<real>, pred: seq<int>, par: seq<int>, ready: nat, s: nat, mu: real, m: nat)
    requires Linked(c, y, v, start, cols, d, pred, par, s) && Tight(c, v, y) && Tight(c, w, y)
    requires ready <= s <= |c| && m < |c|
    requires Relaxed(c, y, v, start, cols, d, ready) && Level(cols, d, ready, s, mu)
    requires Repriced(v, w, cols, d, ready, mu)
    requires m < s || d[cols[m]] == mu
    ensures par[cols[m]] < s && Trail(cols, par, s, m)[0] == cols[m]
    ensures Path(y, pred, start, Trail(cols, par, s, m))
    ensures PathTight(c, w, pred, Trail(cols, par, s, m))
    decreases if m < s then m else |c|
  {
    assert Square(c) && |w| == |c|;
    hide Relaxed, Level, Repriced, Tight, PathTight;
    LinkTight(c, y, v, w, start, cols, d, pred, par, ready, s, mu, m);
    var j := cols[m];
    if par[j] < 0 {
      TightAlone(c, w, pred, j);
    } else {
      var p := par[j];
      TrailIsPath(c, y, v, w, start, cols, d, pred, par, ready, s, mu, p);
      TrailWithin(cols, par, s, p);
      assert p < m && j !in cols[..p + 1];
      PathGrows(y, pred, start, j, Trail(cols, par, s, p));
      TightPathGrows(c, w, pred, j, Trail(cols, par, s, p));
    }
  }
}
