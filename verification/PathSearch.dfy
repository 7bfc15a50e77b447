/** The steps of the shortest path search over the arrays `cols`, `d` and `pred`. */
module PathSearch {
  import opened Permutations
  import opened Assignment
  import opened ShortestPath

  /** `_find_dense`: moves the columns at the least distance to the front of the unsettled ones. */
  method FindDense(n: nat, lo: nat, d: array<real>, cols: array<int>) returns (hi: nat)
    requires lo < n == cols.Length == d.Length && IsPermutation(cols[..], n)
    modifies cols
    ensures lo < hi <= n && IsPermutation(cols[..], n) && cols[..lo] == old(cols[..lo])
    ensures forall k :: lo <= k < hi ==> d[cols[k]] == d[cols[lo]]
    ensures forall k :: hi <= k < n ==> d[cols[lo]] < d[cols[k]]
  {
    hi := lo + 1;
    var mind := d[cols[lo]];
    for k := hi to n
      invariant lo < hi <= k && IsPermutation(cols[..], n) && cols[..lo] == old(cols[..lo])
      invariant forall m :: lo <= m < hi ==> d[cols[m]] == mind
      invariant forall m :: hi <= m < k ==> mind < d[cols[m]]
    {
      var j := cols[k];
      if d[j] <= mind {
        if d[j] < mind {
          hi := lo;
          mind := d[j];
        }
        SwappedPermutation(cols[..], n, k, hi);
        ghost var before := cols[..];
        cols[k] := cols[hi];
        cols[hi] := j;
        assert cols[..] == Swapped(before, k, hi);
        hi := hi + 1;
      }
    }
  }

  /** While the column at position `s` is scanned: `s + 1` columns are settled, the positions
      below `k` have been compared with the way over that column. */
  ghost predicate Scanning(c: Matrix, y: seq<int>, v: seq<real>, start: int, cols: seq<int>, d: seq<real>,
                           pred: seq<int>, par: seq<int>, ready: nat, s: nat, hi: nat, mu: real, k: nat)
  {
    && ready <= s < hi <= k <= |c|
    && Linked(c, y, v, start, cols, d, pred, par, s + 1)
    && Relaxed(c, y, v, start, cols, d, s)
    && StrictLevel(cols, d, ready, hi, mu)
    && (forall m :: 0 <= m < hi ==> 0 <= y[cols[m]])
    && (forall m :: 0 <= m < k ==> d[cols[m]] <= mu + Red(c, v, y[cols[s]], cols[m]) - Red(c, v, y[cols[s]], cols[s]))
  }

  /** Between two scans: `s` columns are settled, the level reaches up to `hi` and holds no free column. */
  ghost predicate Frontier(c: Matrix, y: seq<int>, v: seq<real>, start: int, cols: seq<int>, d: seq<real>,
                           pred: seq<int>, par: seq<int>, ready: nat, s: nat, hi: nat, mu: real)
  {
    && ready <= s <= hi <= |c|
    && Linked(c, y, v, start, cols, d, pred, par, s)
    && Relaxed(c, y, v, start, cols, d, s)
    && StrictLevel(cols, d, ready, hi, mu)
    && (forall m :: 0 <= m < hi ==> 0 <= y[cols[m]])
  }

  /** A found free column: it lies at the current level and is linked over settled columns. */
  ghost predicate Found(c: Matrix, y: seq<int>, v: seq<real>, start: int, cols: seq<int>, d: seq<real>,
                        pred: seq<int>, par: seq<int>, ready: nat, s: nat, mu: real, j: int)
  {
    && ready <= s <= |c| && 0 <= j < |c|
    && Linked(c, y, v, start, cols, d, pred, par, s)
    && Relaxed(c, y, v, start, cols, d, ready)
    && Level(cols, d, ready, s, mu)
    && d[j] == mu && y[j] < 0
  }

  lemma BeginScan(c: Matrix, y: seq<int>, v: seq<real>, start: int, cols: seq<int>, d: seq<real>,
                  pred: seq<int>, par: seq<int>, ready: nat, s: nat, hi: nat, mu: real)
    requires Frontier(c, y, v, start, cols, d, pred, par, ready, s, hi, mu) && s < hi && Tight(c, v, y)
    ensures Scanning(c, y, v, start, cols, d, pred, par, ready, s, hi, mu, hi)
  {
    var s' := s + 1;
    forall j | 0 <= j < |c|
      ensures LinkedTo(c, y, v, start, cols, d, pred, par, s', j)
    {
      assert LinkedTo(c, y, v, start, cols, d, pred, par, s, j);
    }
    assert LinkedTo(c, y, v, start, cols, d, pred, par, s, cols[s]);
    assert RowMin(c, v, y[cols[s]], cols[s]);
  }

  lemma EndScan(c: Matrix, y: seq<int>, v: seq<real>, start: int, cols: seq<int>, d: seq<real>,
                pred: seq<int>, par: seq<int>, ready: nat, s: nat, hi: nat, mu: real)
    requires Scanning(c, y, v, start, cols, d, pred, par, ready, s, hi, mu, |c|)
    ensures Frontier(c, y, v, start, cols, d, pred, par, ready, s + 1, hi, mu)
  {
    forall j | 0 <= j < |c|
      ensures d[j] <= mu + Red(c, v, y[cols[s]], j) - Red(c, v, y[cols[s]], cols[s])
    {
      PermutationCovers(cols, |c|, j);
      var m :| 0 <= m < |c| && cols[m] == j;
    }
  }

  /** A shorter way to the column at position `m` over the column at position `p`. */
  lemma Shorten(c: Matrix, y: seq<int>, v: seq<real>, start: int, cols: seq<int>, d: seq<real>,
                pred: seq<int>, par: seq<int>, t: nat, s: nat, p: nat, m: nat, w: real)
    requires Linked(c, y, v, start, cols, d, pred, par, s) && t <= s && p < s <= m < |c|
    requires Relaxed(c, y, v, start, cols, d, t) && w <= d[cols[m]]
    requires w == d[cols[p]] + Red(c, v, y[cols[p]], cols[m]) - Red(c, v, y[cols[p]], cols[p])
    ensures Linked(c, y, v, start, cols, d[cols[m] := w], pred[cols[m] := y[cols[p]]], par[cols[m] := p], s)
    ensures Relaxed(c, y, v, start, cols, d[cols[m] := w], t)
  {
    var d', pred', par' := d[cols[m] := w], pred[cols[m] := y[cols[p]]], par[cols[m] := p];
    forall j | 0 <= j < |c|
      ensures LinkedTo(c, y, v, start, cols, d', pred', par', s, j)
    {
      assert LinkedTo(c, y, v, start, cols, d, pred, par, s, j);
      assert par'[j] >= 0 ==> cols[par'[j]] != cols[m];
    }
  }

  /** The order of the columns that are not settled does not matter. */
  lemma ReorderUnsettled(c: Matrix, y: seq<int>, v: seq<real>, start: int, cols: seq<int>, d: seq<real>,
                         pred: seq<int>, par: seq<int>, t: nat, s: nat, cols': seq<int>)
    requires Linked(c, y, v, start, cols, d, pred, par, s) && t <= s
    requires Relaxed(c, y, v, start, cols, d, t)
    requires IsPermutation(cols', |c|) && cols'[..s] == cols[..s]
    ensures Linked(c, y, v, start, cols', d, pred, par, s)
    ensures Relaxed(c, y, v, start, cols', d, t)
  {
    assert forall k :: 0 <= k < s ==> cols'[k] == cols'[..s][k] == cols[k];
    forall j | 0 <= j < |c|
      ensures LinkedTo(c, y, v, start, cols', d, pred, par, s, j)
    {
      assert LinkedTo(c, y, v, start, cols, d, pred, par, s, j);
    }
  }

  /** The way over the scanned column to the column at position `k` is no shorter than the level. */
  lemma NoShorterThanLevel(c: Matrix, y: seq<int>, v: seq<real>, start: int, cols: seq<int>, d: seq<real>,
                           pred: seq<int>, par: seq<int>, ready: nat, s: nat, hi: nat, mu: real, k: nat)
    requires Scanning(c, y, v, start, cols, d, pred, par, ready, s, hi, mu, k) && k < |c| && Tight(c, v, y)
    ensures mu <= mu + Red(c, v, y[cols[s]], cols[k]) - Red(c, v, y[cols[s]], cols[s])
  {
  }

  lemma ScanLowers(c: Matrix, y: seq<int>, v: seq<real>, start: int, cols: seq<int>, d: seq<real>,
                   pred: seq<int>, par: seq<int>, ready: nat, s: nat, hi: nat, mu: real, k: nat, w: real)
    requires Scanning(c, y, v, start, cols, d, pred, par, ready, s, hi, mu, k) && k < |c|
    requires mu < w < d[cols[k]] && w == mu + Red(c, v, y[cols[s]], cols[k]) - Red(c, v, y[cols[s]], cols[s])
    ensures Scanning(c, y, v, start, cols, d[cols[k] := w], pred[cols[k] := y[cols[s]]], par[cols[k] := s],
                     ready, s, hi, mu, k + 1)
  {
    Shorten(c, y, v, start, cols, d, pred, par, s, s + 1, s, k, w);
  }

  lemma ScanFinds(c: Matrix, y: seq<int>, v: seq<real>, start: int, cols: seq<int>, d: seq<real>,
                  pred: seq<int>, par: seq<int>, ready: nat, s: nat, hi: nat, mu: real, k: nat)
    requires Scanning(c, y, v, start, cols, d, pred, par, ready, s, hi, mu, k) && k < |c|
    requires mu < d[cols[k]] && mu == mu + Red(c, v, y[cols[s]], cols[k]) - Red(c, v, y[cols[s]], cols[s])
    requires y[cols[k]] < 0
    ensures Found(c, y, v, start, cols, d[cols[k] := mu], pred[cols[k] := y[cols[s]]], par[cols[k] := s],
                  ready, s + 1, mu, cols[k])
  {
    Shorten(c, y, v, start, cols, d, pred, par, s, s + 1, s, k, mu);
  }

  /** The column at position `k` joins the current level. */
  lemma JoinLevel(cols: seq<int>, d: seq<real>, ready: nat, hi: nat, mu: real, k: nat)
    requires IsPermutation(cols, |d|) && ready <= hi <= k < |cols| && StrictLevel(cols, d, ready, hi, mu)
    ensures StrictLevel(Swapped(cols, k, hi), d[cols[k] := mu], ready, hi + 1, mu)
  {
  }

  /** The links after the column at position `k` has joined the level. */
  lemma LinksWhenLevelled(c: Matrix, y: seq<int>, v: seq<real>, start: int, cols: seq<int>, d: seq<real>,
                          pred: seq<int>, par: seq<int>, ready: nat, s: nat, hi: nat, mu: real, k: nat)
    requires Scanning(c, y, v, start, cols, d, pred, par, ready, s, hi, mu, k) && k < |c|
    requires mu < d[cols[k]] && mu == mu + Red(c, v, y[cols[s]], cols[k]) - Red(c, v, y[cols[s]], cols[s])
    ensures Linked(c, y, v, start, Swapped(cols, k, hi), d[cols[k] := mu], pred[cols[k] := y[cols[s]]],
                   par[cols[k] := s], s + 1)
    ensures Relaxed(c, y, v, start, Swapped(cols, k, hi), d[cols[k] := mu], s)
    ensures d[cols[k] := mu][cols[k]] == mu
    ensures forall m :: 0 <= m < k ==> d[cols[k] := mu][cols[m]] == d[cols[m]]
  {
    Shorten(c, y, v, start, cols, d, pred, par, s, s + 1, s, k, mu);
    SwappedPermutation(cols, |c|, k, hi);
    ReorderUnsettled(c, y, v, start, cols, d[cols[k] := mu], pred[cols[k] := y[cols[s]]], par[cols[k] := s], s, s + 1,
                     Swapped(cols, k, hi));
  }

  lemma ScanLevels(c: Matrix, y: seq<int>, v: seq<real>, start: int, cols: seq<int>, d: seq<real>,
                   pred: seq<int>, par: seq<int>, ready: nat, s: nat, hi: nat, mu: real, k: nat)
    requires Scanning(c, y, v, start, cols, d, pred, par, ready, s, hi, mu, k) && k < |c|
    requires mu < d[cols[k]] && mu == mu + Red(c, v, y[cols[s]], cols[k]) - Red(c, v, y[cols[s]], cols[s])
    requires y[cols[k]] >= 0
    ensures Scanning(c, y, v, start, Swapped(cols, k, hi), d[cols[k] := mu], pred[cols[k] := y[cols[s]]],
                     par[cols[k] := s], ready, s, hi + 1, mu, k + 1)
  {
    hide StrictLevel, Relaxed, LinkedTo;
    LinksWhenLevelled(c, y, v, start, cols, d, pred, par, ready, s, hi, mu, k);
    JoinLevel(cols, d, ready, hi, mu, k);
    var cols', d' := Swapped(cols, k, hi), d[cols[k] := mu];
    var i, q := y[cols[s]], cols[s];
    forall m | 0 <= m <= k
      ensures d'[cols'[m]] <= mu + Red(c, v, i, cols'[m]) - Red(c, v, i, q)
    {
      var m0 := if m == k then hi else if m == hi then k else m;
      assert cols'[m] == cols[m0];
    }
  }

  /** Compares the column at position `k` with the way over the scanned column. */
  method ScanCell(c: Matrix, y: array<int>, v: array<real>, d: array<real>, cols: array<int>, pred: array<int>,
                  i: nat, h: real, mind: real, k: nat, hi: nat,
                  ghost start: int, ghost par: seq<int>, ghost ready: nat, ghost s: nat)
    returns (found: bool, hi': nat, ghost par': seq<int>)
    requires y.Length == v.Length == d.Length == cols.Length == pred.Length == |c|
    requires y != cols && y != pred && cols != pred && v != d
    requires Tight(c, v[..], y[..]) && k < |c|
    requires Scanning(c, y[..], v[..], start, cols[..], d[..], pred[..], par, ready, s, hi, mind, k)
    requires i == y[cols[s]] && h == Red(c, v[..], i, cols[s]) - mind
    modifies d, cols, pred
    ensures cols[..s + 1] == old(cols[..s + 1])
    ensures !found ==> hi <= hi' <= k + 1
    ensures !found ==> Scanning(c, y[..], v[..], start, cols[..], d[..], pred[..], par', ready, s, hi', mind, k + 1)
    ensures found ==> Found(c, y[..], v[..], start, cols[..], d[..], pred[..], par', ready, s + 1, mind, cols[k])
  {
    hide Found, Tight;
    found, hi', par' := false, hi, par;
    ghost var y0, v0, cols0, d0, pred0 := y[..], v[..], cols[..], d[..], pred[..];
    var j := cols[k];
    var cred_ij := c[i][j] - v[j] - h;
    NoShorterThanLevel(c, y0, v0, start, cols0, d0, pred0, par, ready, s, hi, mind, k);
    if cred_ij < d[j] {
      d[j] := cred_ij;
      pred[j] := i;
      par' := par[j := s];
      assert d[..] == d0[j := cred_ij] && pred[..] == pred0[j := i];
      if cred_ij == mind {
        if y[j] < 0 {
          ScanFinds(c, y0, v0, start, cols0, d0, pred0, par, ready, s, hi, mind, k);
          found := true;
          return;
        }
        ScanLevels(c, y0, v0, start, cols0, d0, pred0, par, ready, s, hi, mind, k);
        cols[k] := cols[hi];
        cols[hi] := j;
        hi' := hi + 1;
        assert cols[..] == Swapped(cols0, k, hi);
      } else {
        ScanLowers(c, y0, v0, start, cols0, d0, pred0, par, ready, s, hi, mind, k, cred_ij);
      }
    }
  }

  /** Scans the column at position `s`; stops at once when a free column joins the level. */
  method ScanColumn(c: Matrix, y: array<int>, v: array<real>, d: array<real>, cols: array<int>, pred: array<int>,
                    s: nat, hi: nat, ghost start: int, ghost par: seq<int>, ghost ready: nat, ghost mu: real)
    returns (final_j: int, hi': nat, ghost par': seq<int>)
    requires y.Length == v.Length == d.Length == cols.Length == pred.Length == |c|
    requires y != cols && y != pred && cols != pred && v != d
    requires Tight(c, v[..], y[..])
    requires Frontier(c, y[..], v[..], start, cols[..], d[..], pred[..], par, ready, s, hi, mu) && s < hi
    modifies d, cols, pred
    ensures cols[..s + 1] == old(cols[..s + 1])
    ensures final_j == -1 ==> hi <= hi'
    ensures final_j == -1 ==> Frontier(c, y[..], v[..], start, cols[..], d[..], pred[..], par', ready, s + 1, hi', mu)
    ensures final_j != -1 ==> Found(c, y[..], v[..], start, cols[..], d[..], pred[..], par', ready, s + 1, mu, final_j)
  {
    var j := cols[s];
    var i := y[j];
    var mind := d[j];
    var h := c[i][j] - v[j] - mind;
    final_j, hi', par' := -1, hi, par;
    BeginScan(c, y[..], v[..], start, cols[..], d[..], pred[..], par, ready, s, hi, mu);
    for k := hi to |c|
      invariant hi <= hi' <= k && cols[..s + 1] == old(cols[..s + 1])
      invariant Scanning(c, y[..], v[..], start, cols[..], d[..], pred[..], par', ready, s, hi', mu, k)
    {
      var found;
      assert cols[..s + 1][s] == j;
      found, hi', par' := ScanCell(c, y, v, d, cols, pred, i, h, mind, k, hi', start, par', ready, s);
      if found {
        final_j := cols[k];
        return;
      }
    }
    EndScan(c, y[..], v[..], start, cols[..], d[..], pred[..], par', ready, s, hi', mu);
  }

  lemma FrontierLevel(c: Matrix, y: seq<int>, v: seq<real>, start: int, cols: seq<int>, d: seq<real>,
                      pred: seq<int>, par: seq<int>, ready: nat, s: nat, hi: nat, mu: real)
    requires Frontier(c, y, v, start, cols, d, pred, par, ready, s, hi, mu) && ready < hi
    ensures |cols| == |d| == |c| && hi <= |c| && 0 <= cols[ready] < |c| && d[cols[ready]] == mu
  {
  }

  lemma FoundLevel(c: Matrix, y: seq<int>, v: seq<real>, start: int, cols: seq<int>, d: seq<real>,
                   pred: seq<int>, par: seq<int>, ready: nat, s: nat, mu: real, j: int)
    requires Found(c, y, v, start, cols, d, pred, par, ready, s, mu, j) && ready < s
    ensures |cols| == |d| == |c| && 0 <= cols[ready] < |c| && d[cols[ready]] == mu
  {
  }

  /** `_scan_dense`: scans the whole level. When a free column is met the caller's bounds stay. */
  method ScanDense(c: Matrix, y: array<int>, v: array<real>, d: array<real>, cols: array<int>, pred: array<int>,
                   lo: nat, hi: nat, ghost start: int, ghost par: seq<int>, ghost mu: real)
    returns (final_j: int, lo': nat, hi': nat, ghost par': seq<int>, ghost s: nat)
    requires y.Length == v.Length == d.Length == cols.Length == pred.Length == |c|
    requires y != cols && y != pred && cols != pred && v != d
    requires Tight(c, v[..], y[..])
    requires Frontier(c, y[..], v[..], start, cols[..], d[..], pred[..], par, lo, lo, hi, mu) && lo < hi
    modifies d, cols, pred
    ensures cols[..lo + 1] == old(cols[..lo + 1])
    ensures final_j == -1 ==> lo < lo' == hi'
    ensures final_j == -1 ==> Frontier(c, y[..], v[..], start, cols[..], d[..], pred[..], par', lo, lo', hi', mu)
    ensures final_j != -1 ==> lo' == lo && hi' == hi && lo < s
    ensures final_j != -1 ==> Found(c, y[..], v[..], start, cols[..], d[..], pred[..], par', lo, s, mu, final_j)
    ensures d[cols[lo]] == mu
  {
    hide Tight, Frontier, Found;
    FrontierLevel(c, y[..], v[..], start, cols[..], d[..], pred[..], par, lo, lo, hi, mu);
    final_j, lo', hi', par' := -1, lo, hi, par;
    s := lo;
    var l, h := lo, hi;
    while l != h
      invariant lo <= l <= h && lo < h && cols[..lo + 1] == old(cols[..lo + 1])
      invariant Frontier(c, y[..], v[..], start, cols[..], d[..], pred[..], par', lo, l, h, mu)
      invariant h <= |c| && 0 <= cols[lo] < |c| && d[cols[lo]] == mu
      decreases |c| - l
    {
      ghost var prefix := cols[..l + 1];
      final_j, h, par' := ScanColumn(c, y, v, d, cols, pred, l, h, start, par', lo, mu);
      assert cols[..lo + 1] == prefix[..lo + 1];
      if final_j != -1 {
        s := l + 1;
        FoundLevel(c, y[..], v[..], start, cols[..], d[..], pred[..], par', lo, s, mu, final_j);
        return;
      }
      l := l + 1;
      FrontierLevel(c, y[..], v[..], start, cols[..], d[..], pred[..], par', lo, l, h, mu);
    }
    lo', hi' := l, h;
  }

  /** The columns ready for the next level, none of them free and none further than the rest. */
  ghost predicate Settled(c: Matrix, y: seq<int>, v: seq<real>, start: int, cols: seq<int>, d: seq<real>,
                          pred: seq<int>, par: seq<int>, lo: nat)
  {
    && Linked(c, y, v, start, cols, d, pred, par, lo)
    && Relaxed(c, y, v, start, cols, d, lo)
    && (forall k, m :: 0 <= k < lo <= m < |c| ==> d[cols[k]] <= d[cols[m]])
  }

  method StartSearch(c: Matrix, start: nat, y: array<int>, v: array<real>, pred: array<int>)
    returns (cols: array<int>, d: array<real>, ghost par: seq<int>)
    requires Square(c) && y.Length == v.Length == pred.Length == |c| && start < |c| && y != pred
    modifies pred
    ensures fresh(cols) && fresh(d) && cols.Length == d.Length == |c|
    ensures Settled(c, y[..], v[..], start, cols[..], d[..], pred[..], par, 0)
  {
    var n := |c|;
    cols := new int[n];
    d := new real[n];
    par := seq(n, _ => -1);
    for i := 0 to n
      invariant forall k :: 0 <= k < i ==> cols[k] == k && pred[k] == start && d[k] == c[start][k] - v[k]
    {
      cols[i] := i;
      pred[i] := start;
      d[i] := c[start][i] - v[i];
    }
    forall j | 0 <= j < n
      ensures LinkedTo(c, y[..], v[..], start, cols[..], d[..], pred[..], par, 0, j)
    {
      assert d[j] == Red(c, v[..], start, j);
    }
  }

  lemma UnsettledLeft(c: Matrix, y: seq<int>, v: seq<real>, start: int, cols: seq<int>, d: seq<real>,
                      pred: seq<int>, par: seq<int>, s: nat)
    requires Linked(c, y, v, start, cols, d, pred, par, s)
    requires exists j :: 0 <= j < |c| && y[j] < 0
    ensures s < |c|
  {
    var j :| 0 <= j < |c| && y[j] < 0;
    PermutationCovers(cols, |c|, j);
  }

  lemma LevelFound(cols0: seq<int>, cols: seq<int>, d: seq<real>, lo: nat, hi: nat)
    requires IsPermutation(cols, |d|) && IsPermutation(cols0, |d|) && lo < hi <= |cols| && cols[..lo] == cols0[..lo]
    requires forall k, m :: 0 <= k < lo <= m < |d| ==> d[cols0[k]] <= d[cols0[m]]
    requires forall k :: lo <= k < hi ==> d[cols[k]] == d[cols[lo]]
    requires forall k :: hi <= k < |d| ==> d[cols[lo]] < d[cols[k]]
    ensures StrictLevel(cols, d, lo, hi, d[cols[lo]])
  {
    forall k | 0 <= k < lo
      ensures d[cols[k]] <= d[cols[lo]]
    {
      assert cols[k] == cols[..lo][k] == cols0[k];
      PermutationCovers(cols0, |d|, cols[lo]);
      var m :| 0 <= m < |d| && cols0[m] == cols[lo];
    }
  }

  /** The nearest unsettled columns stand behind the settled ones; some of them may be free. */
  ghost predicate Collected(c: Matrix, y: seq<int>, v: seq<real>, start: int, cols: seq<int>, d: seq<real>,
                            pred: seq<int>, par: seq<int>, lo: nat, hi: nat, mu: real)
  {
    && lo < hi <= |c|
    && Linked(c, y, v, start, cols, d, pred, par, lo)
    && Relaxed(c, y, v, start, cols, d, lo)
    && StrictLevel(cols, d, lo, hi, mu)
  }

  lemma FreeIsFound(c: Matrix, y: seq<int>, v: seq<real>, start: int, cols: seq<int>, d: seq<real>,
                    pred: seq<int>, par: seq<int>, lo: nat, hi: nat, mu: real, j: int)
    requires Collected(c, y, v, start, cols, d, pred, par, lo, hi, mu)
    requires exists m :: lo <= m < hi && j == cols[m] && y[cols[m]] < 0
    ensures Found(c, y, v, start, cols, d, pred, par, lo, lo, mu, j)
  {
  }

  lemma AllTaken(c: Matrix, y: seq<int>, v: seq<real>, start: int, cols: seq<int>, d: seq<real>,
                 pred: seq<int>, par: seq<int>, lo: nat, hi: nat, mu: real)
    requires Collected(c, y, v, start, cols, d, pred, par, lo, hi, mu)
    requires forall m :: lo <= m < hi ==> 0 <= y[cols[m]]
    ensures Frontier(c, y, v, start, cols, d, pred, par, lo, lo, hi, mu)
  {
  }

  lemma LevelSettled(c: Matrix, y: seq<int>, v: seq<real>, start: int, cols: seq<int>, d: seq<real>,
                     pred: seq<int>, par: seq<int>, lo: nat, s: nat, mu: real)
    requires Frontier(c, y, v, start, cols, d, pred, par, lo, s, s, mu)
    ensures Settled(c, y, v, start, cols, d, pred, par, s)
  {
  }

  /** Collects the nearest unsettled columns behind the settled ones. */
  method NextLevel(c: Matrix, y: array<int>, v: array<real>, d: array<real>, cols: array<int>, pred: array<int>,
                   lo: nat, ghost start: int, ghost par: seq<int>)
    returns (hi: nat)
    requires y.Length == v.Length == d.Length == cols.Length == pred.Length == |c|
    requires y != cols && cols != pred && lo < |c|
    requires Settled(c, y[..], v[..], start, cols[..], d[..], pred[..], par, lo)
    modifies cols
    ensures lo < hi <= |c| && 0 <= cols[lo] < |c|
    ensures Collected(c, y[..], v[..], start, cols[..], d[..], pred[..], par, lo, hi, d[cols[lo]])
  {
    ghost var cols0 := cols[..];
    hi := FindDense(|c|, lo, d, cols);
    ReorderUnsettled(c, y[..], v[..], start, cols0, d[..], pred[..], par, lo, lo, cols[..]);
    LevelFound(cols0, cols[..], d[..], lo, hi);
  }

  /** The last free column among the positions from `lo` to `hi`, or -1. */
  method FreeInLevel(y: array<int>, cols: array<int>, lo: nat, hi: nat) returns (final_j: int)
    requires lo <= hi <= cols.Length && Within(cols[..], y.Length)
    ensures final_j == -1 ==> forall m :: lo <= m < hi ==> 0 <= y[cols[m]]
    ensures final_j != -1 ==> exists m :: lo <= m < hi && final_j == cols[m] && y[cols[m]] < 0
  {
    final_j := -1;
    for k := lo to hi
      invariant final_j == -1 ==> forall m :: lo <= m < k ==> 0 <= y[cols[m]]
      invariant final_j != -1 ==> exists m :: lo <= m < k && final_j == cols[m] && y[cols[m]] < 0
    {
      var j := cols[k];
      if y[j] < 0 {
        final_j := j;
      }
    }
  }

  /** One level: collects the nearest unsettled columns, looks for a free one, else scans them. */
  method SearchLevel(c: Matrix, y: array<int>, v: array<real>, d: array<real>, cols: array<int>, pred: array<int>,
                     lo: nat, ghost start: int, ghost par: seq<int>)
    returns (final_j: int, lo': nat, ghost par': seq<int>, ghost s: nat)
    requires y.Length == v.Length == d.Length == cols.Length == pred.Length == |c|
    requires y != cols && y != pred && cols != pred && v != d
    requires Tight(c, v[..], y[..]) && lo < |c|
    requires Settled(c, y[..], v[..], start, cols[..], d[..], pred[..], par, lo)
    modifies d, cols, pred
    ensures final_j == -1 ==> lo < lo' && Settled(c, y[..], v[..], start, cols[..], d[..], pred[..], par', lo')
    ensures final_j != -1 ==> lo' == lo && 0 <= cols[lo] < |c| && lo <= s
    ensures final_j != -1 ==> Found(c, y[..], v[..], start, cols[..], d[..], pred[..], par', lo, s, d[cols[lo]],
                                    final_j)
  {
    var hi := NextLevel(c, y, v, d, cols, pred, lo, start, par);
    ghost var mu, prefix := d[cols[lo]], cols[..lo + 1];
    final_j := FreeInLevel(y, cols, lo, hi);
    lo', par', s := lo, par, lo;
    if final_j == -1 {
      AllTaken(c, y[..], v[..], start, cols[..], d[..], pred[..], par, lo, hi, mu);
      final_j, lo', hi, par', s := ScanDense(c, y, v, d, cols, pred, lo, hi, start, par, mu);
      assert cols[lo] == cols[..lo + 1][lo] == prefix[lo];
      if final_j == -1 {
        LevelSettled(c, y[..], v[..], start, cols[..], d[..], pred[..], par', lo, lo', mu);
      }
    } else {
      FreeIsFound(c, y[..], v[..], start, cols[..], d[..], pred[..], par, lo, hi, mu, final_j);
    }
  }
}
