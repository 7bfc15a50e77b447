/** Second phase of the Jonker-Volgenant solver: augmenting row reduction. */
module RowReduction {
  import opened Permutations
  import opened Assignment
  import opened ColumnReduction

  ghost predicate CostsIn(c: Matrix, lo: real, hi: real) {
    Square(c) && forall i, j :: 0 <= i < |c| && 0 <= j < |c| ==> lo <= c[i][j] <= hi
  }

  /** While some row has no column, some column has no row. */
  lemma FreeColumnExists(x: seq<int>, y: seq<int>, n: nat, f: int)
    requires Matching(x, y, n) && 0 <= f < n && !Matched(x, y, f)
    ensures exists j :: 0 <= j < n && y[j] < 0
  {
    if forall j :: 0 <= j < n ==> y[j] >= 0 {
      forall j, k | 0 <= j < k < n
        ensures y[j] != y[k]
      {
        assert x[y[j]] == j && x[y[k]] == k;
      }
      PermutationCovers(y, n, f);
    }
  }

  /** While a row is free, prices stay within one cost range of the costs and reduced costs
      within two: the sentinel LARGE never stands in for a real minimum. */
  lemma SentinelBound(c: Matrix, v: seq<real>, x: seq<int>, y: seq<int>, lo: real, hi: real, f: int)
    requires CostsIn(c, lo, hi) && Tight(c, v, y) && Priced(c, v, y, lo) && Matching(x, y, |c|)
    requires 0 <= f < |c| && !Matched(x, y, f)
    ensures forall j :: 0 <= j < |c| ==> lo - (hi - lo) <= v[j] <= hi
    ensures forall i, j :: 0 <= i < |c| && 0 <= j < |c| ==> 0.0 <= c[i][j] - v[j] <= 2.0 * (hi - lo)
  {
    FreeColumnExists(x, y, |c|, f);
    var g :| 0 <= g < |c| && y[g] < 0;
    forall j | 0 <= j < |c|
      ensures lo - (hi - lo) <= v[j] <= hi
    {
      assert v[j] <= c[f][j];
      if y[j] >= 0 {
        assert RowMin(c, v, y[j], j);
        assert c[y[j]][j] - v[j] <= c[y[j]][g] - v[g];
      }
    }
  }

  /** The least and the second least reduced cost of a row, the first of equals taken as least. */
  method TwoSmallest(c: Matrix, v: array<real>, i: nat) returns (j1: nat, v1: real, j2: int, v2: real)
    requires Square(c) && v.Length == |c| && i < |c|
    requires forall j :: 0 <= j < |c| ==> c[i][j] - v[j] < LARGE
    ensures j1 < |c| && v1 == c[i][j1] - v[j1] <= v2
    ensures forall j :: 0 <= j < |c| && j != j1 ==> v2 <= c[i][j] - v[j]
    ensures j2 >= 0 ==> j2 < |c| && j2 != j1 && v2 == c[i][j2] - v[j2]
    ensures j2 < 0 ==> |c| == 1
  {
    var n := |c|;
    j1 := 0;
    v1 := c[i][0] - v[0];
    j2 := -1;
    v2 := LARGE;
    for j := 1 to n
      invariant j1 < j && v1 == c[i][j1] - v[j1] <= v2
      invariant forall k :: 0 <= k < j && k != j1 ==> v2 <= c[i][k] - v[k]
      invariant j2 >= 0 ==> j2 < j && j2 != j1 && v2 == c[i][j2] - v[j2]
      invariant j2 < 0 ==> j == 1 && v2 == LARGE
    {
      var cost := c[i][j] - v[j];
      if cost < v2 {
        if cost >= v1 {
          v2 := cost;
          j2 := j;
        } else {
          v2 := v1;
          v1 := cost;
          j2 := j1;
          j1 := j;
        }
      }
    }
  }

  /** Giving column `j` to row `f` at its row minimum. Other prices are kept, `v[j]` may only fall. */
  lemma AssignKeepsTight(c: Matrix, v: seq<real>, y: seq<int>, lo: real, f: int, j: int, w: real)
    requires Tight(c, v, y) && Priced(c, v, y, lo) && 0 <= f < |c| && 0 <= j < |c| && w <= v[j]
    requires forall k :: 0 <= k < |c| && k != j ==> c[f][j] - w <= c[f][k] - v[k]
    ensures Tight(c, v[j := w], y[j := f]) && Priced(c, v[j := w], y[j := f], lo)
  {
  }

  /** Giving column `j` to the free row `f` displaces at most the row that had it. */
  lemma AssignKeepsMatching(x: seq<int>, y: seq<int>, n: nat, f: int, j: int)
    requires Matching(x, y, n) && 0 <= f < n && 0 <= j < n && !Matched(x, y, f)
    ensures Matching(x[f := j], y[j := f], n)
    ensures forall r :: 0 <= r < n ==> (Matched(x[f := j], y[j := f], r) <==> r == f || (Matched(x, y, r) && r != y[j]))
  {
  }

  /** The list of free rows after its `k`-th entry took column `j`. */
  ghost function AfterAssign(free: seq<int>, k: nat, displaced: int): seq<int>
    requires k < |free|
  {
    if displaced >= 0 then free[k := displaced] else Without(free, k)
  }

  /** Replacing the entry at `k` swaps one listed row for another; removing it drops that row. */
  lemma AfterAssignMembers(free: seq<int>, k: nat, displaced: int)
    requires Distinct(free) && k < |free| && displaced !in free
    ensures Distinct(AfterAssign(free, k, displaced))
    ensures forall r :: r in AfterAssign(free, k, displaced) <==>
              (r in free && r != free[k]) || (r == displaced && displaced >= 0)
  {
    var after := AfterAssign(free, k, displaced);
    if displaced >= 0 {
      assert after[k] == displaced && forall m :: 0 <= m < |free| && m != k ==> after[m] == free[m];
    } else {
      assert forall m :: 0 <= m < k ==> after[m] == free[m];
      assert forall m :: k < m < |free| ==> after[m - 1] == free[m];
    }
  }

  lemma AssignKeepsFreeRows(free: seq<int>, x: seq<int>, y: seq<int>, n: nat, k: nat, j: int)
    requires Matching(x, y, n) && FreeRows(free, x, y) && k < |free| && 0 <= j < n
    ensures Matching(x[free[k] := j], y[j := free[k]], n)
    ensures FreeRows(AfterAssign(free, k, y[j]), x[free[k] := j], y[j := free[k]])
  {
    var f := free[k];
    assert f in free && !Matched(x, y, f);
    AssignKeepsMatching(x, y, n, f, j);
    assert y[j] !in free by {
      assert y[j] >= 0 ==> Matched(x, y, y[j]);
    }
    AfterAssignMembers(free, k, y[j]);
  }

  /** The rows still free: those put aside in front of `aside`, and those not read yet. */
  ghost function LiveRows(rows: seq<int>, aside: nat, current: nat, end: nat): seq<int>
    requires aside <= current <= end <= |rows|
  {
    rows[..aside] + rows[current..end]
  }

  lemma AllLive(rows: seq<int>, end: nat)
    requires end <= |rows|
    ensures LiveRows(rows, 0, 0, end) == rows[..end]
  {
  }

  lemma NoneUnread(rows: seq<int>, aside: nat, end: nat)
    requires aside <= end <= |rows|
    ensures LiveRows(rows, aside, end, end) == rows[..aside]
  {
  }

  /** Reading a row and then putting the displaced row, if any, back or aside. */
  lemma ReplaceLiveRow(rows: seq<int>, aside: nat, current: nat, end: nat, displaced: int)
    requires aside <= current < end <= |rows|
    ensures var live := LiveRows(rows, aside, current, end);
            && live[aside] == rows[current]
            && (displaced < 0 ==> LiveRows(rows, aside, current + 1, end) == AfterAssign(live, aside, displaced))
            && (displaced >= 0 ==>
                  LiveRows(rows[current := displaced], aside, current, end) == AfterAssign(live, aside, displaced))
            && (displaced >= 0 ==>
                  LiveRows(rows[aside := displaced], aside + 1, current + 1, end)
                  == AfterAssign(live, aside, displaced))
  {
  }

  lemma ScaledOrder(a: nat, b: nat, n: nat)
    requires a <= b
    ensures a * n <= b * n
  {
  }

  /** Chooses a column for the free row `f` and lowers its price when `may_lower` allows. */
  method ChooseColumn(c: Matrix, y: array<int>, v: array<real>, f: nat, may_lower: bool, ghost lo: real)
    returns (j: nat, i0: int, lowered: bool)
    requires f < |c| && y.Length == v.Length == |c|
    requires Tight(c, v[..], y[..]) && Priced(c, v[..], y[..], lo)
    requires forall k :: 0 <= k < |c| ==> c[f][k] - v[k] < LARGE
    modifies v
    ensures j < |c| && i0 == y[j]
    ensures Tight(c, v[..], y[..][j := f]) && Priced(c, v[..], y[..][j := f], lo)
    ensures lowered ==> may_lower
  {
    var j1, v1, j2, v2 := TwoSmallest(c, v, f);
    i0 := y[j1];
    var v1_new := v[j1] - (v2 - v1);
    lowered := may_lower && v1_new < v[j1];
    ghost var v0 := v[..];
    if lowered {
      v[j1] := v1_new;
    } else if may_lower && i0 >= 0 && j2 >= 0 {
      j1 := j2;
      i0 := y[j2];
    }
    j := j1;
    assert v[..] == v0[j := v[j]];
    AssignKeepsTight(c, v0, y[..], lo, f, j, v[j]);
  }

  /** Puts the displaced row, if any, back to be read next or aside for the next phase. */
  method KeepDisplaced(free_rows: array<int>, current: nat, new_free_rows: nat, ghost end: nat, i0: int, again: bool)
    returns (current': nat, new_free_rows': nat)
    requires new_free_rows < current <= end <= free_rows.Length
    modifies free_rows
    ensures new_free_rows' <= current' <= end
    ensures LiveRows(free_rows[..], new_free_rows', current', end)
         == AfterAssign(LiveRows(old(free_rows[..]), new_free_rows, current - 1, end), new_free_rows, i0)
    ensures current' == if i0 >= 0 && again then current - 1 else current
  {
    hide LiveRows, AfterAssign;
    ghost var rows := free_rows[..];
    ReplaceLiveRow(rows, new_free_rows, current - 1, end, i0);
    current', new_free_rows' := current, new_free_rows;
    if i0 >= 0 {
      if again {
        current' := current - 1;
        free_rows[current'] := i0;
        assert free_rows[..] == rows[current - 1 := i0];
      } else {
        free_rows[new_free_rows'] := i0;
        new_free_rows' := new_free_rows + 1;
        assert free_rows[..] == rows[new_free_rows := i0];
      }
    }
  }

  /** One pass of the loop: the next free row takes a column, a displaced row stays on the list. */
  method ReducePass(c: Matrix, n_free_rows: nat, free_rows: array<int>, x: array<int>, y: array<int>, v: array<real>,
                    current: nat, new_free_rows: nat, rr_cnt: nat, ghost lo: real, ghost hi: real)
    returns (current': nat, new_free_rows': nat)
    requires CostsIn(c, lo, hi) && 2.0 * (hi - lo) < LARGE
    requires free_rows.Length == x.Length == y.Length == v.Length == |c|
    requires free_rows != x && free_rows != y && x != y
    requires new_free_rows <= current < n_free_rows <= |c|
    requires Partial(c, LiveRows(free_rows[..], new_free_rows, current, n_free_rows), x[..], y[..], v[..], lo)
    modifies free_rows, x, y, v
    ensures new_free_rows' <= current' <= n_free_rows
    ensures Partial(c, LiveRows(free_rows[..], new_free_rows', current', n_free_rows), x[..], y[..], v[..], lo)
    ensures current' == current ==> rr_cnt < (current + 1) * |c|
    ensures current' == current || current' == current + 1
  {
    ghost var live := LiveRows(free_rows[..], new_free_rows, current, n_free_rows);
    ghost var x0, y0 := x[..], y[..];
    var free_i := free_rows[current];
    current' := current + 1;
    assert live[new_free_rows] == free_i && free_i in live;
    SentinelBound(c, v[..], x0, y0, lo, hi, free_i);
    var j1, i0, v1_lowers := ChooseColumn(c, y, v, free_i, rr_cnt < current' * |c|, lo);
    AssignKeepsFreeRows(live, x0, y0, |c|, new_free_rows, j1);
    current', new_free_rows' := KeepDisplaced(free_rows, current', new_free_rows, n_free_rows, i0, v1_lowers);
    x[free_i] := j1;
    y[j1] := free_i;
    assert x[..] == x0[free_i := j1] && y[..] == y0[j1 := free_i];
  }

  /** `_carr_dense`: every free row takes a cheapest column; the rows it displaces are either
      read again or put aside at the front of `free_rows`. The count of passes is returned. */
  method CarrDense(c: Matrix, n_free_rows: nat, free_rows: array<int>, x: array<int>, y: array<int>, v: array<real>,
                   ghost lo: real, ghost hi: real)
    returns (new_free_rows: nat, rr_cnt: nat)
    requires CostsIn(c, lo, hi) && 2.0 * (hi - lo) < LARGE
    requires free_rows.Length == x.Length == y.Length == v.Length == |c| && n_free_rows <= |c|
    requires free_rows != x && free_rows != y && x != y
    requires Partial(c, free_rows[..n_free_rows], x[..], y[..], v[..], lo)
    modifies free_rows, x, y, v
    ensures new_free_rows <= n_free_rows
    ensures Partial(c, free_rows[..new_free_rows], x[..], y[..], v[..], lo)
    ensures rr_cnt <= n_free_rows * |c| + n_free_rows
  {
    hide Partial, LiveRows, CostsIn;
    var n, current := |c|, 0;
    new_free_rows, rr_cnt := 0, 0;
    AllLive(free_rows[..], n_free_rows);
    while current < n_free_rows
      invariant new_free_rows <= current <= n_free_rows
      invariant Partial(c, LiveRows(free_rows[..], new_free_rows, current, n_free_rows), x[..], y[..], v[..], lo)
      invariant rr_cnt <= n_free_rows * n + current
      decreases n_free_rows * n + n_free_rows - rr_cnt
    {
      rr_cnt := rr_cnt + 1;
      ScaledOrder(current + 1, n_free_rows, n);
      current, new_free_rows := ReducePass(c, n_free_rows, free_rows, x, y, v, current, new_free_rows, rr_cnt, lo, hi);
    }
    NoneUnread(free_rows[..], new_free_rows, current);
  }
}
