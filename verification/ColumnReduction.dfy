/** First phase of the Jonker-Volgenant solver: column reduction and reduction transfer. */
module ColumnReduction {
  import opened Permutations
  import opened Assignment

  const LARGE: real := 1000000.0

  /** `w` is the least entry of column `j` among the first `m` rows, first met in row `r`. */
  ghost predicate ColumnMin(c: Matrix, m: nat, j: int, r: int, w: real)
    requires Square(c) && m <= |c| && 0 <= j < |c|
  {
    && 0 <= r < m && w == c[r][j]
    && (forall k :: 0 <= k < m ==> w <= c[k][j])
    && (forall k :: 0 <= k < r ==> w < c[k][j])
  }

  ghost predicate ColumnSeen(c: Matrix, m: nat, j: int, r: int, w: real)
    requires Square(c) && m <= |c| && 0 <= j < |c|
  {
    if m == 0 then r == 0 && w == LARGE else ColumnMin(c, m, j, r, w)
  }

  /** No price exceeds a cost of its column, and a column without a row costs at least `lo`. */
  ghost predicate Priced(c: Matrix, v: seq<real>, y: seq<int>, lo: real) {
    && Square(c) && |v| == |c| && |y| == |c|
    && (forall i, j :: 0 <= i < |c| && 0 <= j < |c| ==> v[j] <= c[i][j])
    && (forall j :: 0 <= j < |c| && y[j] < 0 ==> lo <= v[j])
  }

  /** `free` lists exactly the unmatched rows, each once. */
  ghost predicate FreeRows(free: seq<int>, x: seq<int>, y: seq<int>) {
    && Within(free, |x|) && Distinct(free)
    && (forall r :: 0 <= r < |x| ==> (r in free <==> !Matched(x, y, r)))
  }

  /** A matching under construction: the free rows are listed, assigned columns are tight. */
  ghost predicate Partial(c: Matrix, free: seq<int>, x: seq<int>, y: seq<int>, v: seq<real>, lo: real) {
    FreeRows(free, x, y) && Matching(x, y, |c|) && Tight(c, v, y) && Priced(c, v, y, lo)
  }

  method ColumnMinima(c: Matrix, y: array<int>, v: array<real>)
    requires Square(c) && y.Length == |c| == v.Length
    requires forall i, j :: 0 <= i < |c| && 0 <= j < |c| ==> c[i][j] < LARGE
    requires |c| > 0
    modifies y, v
    ensures forall j :: 0 <= j < |c| ==> ColumnMin(c, |c|, j, y[j], v[j])
  {
    var n := |c|;
    for i := 0 to n
      invariant forall j :: 0 <= j < i ==> v[j] == LARGE && y[j] == 0
    {
      v[i] := LARGE;
      y[i] := 0;
    }
    for i := 0 to n
      invariant forall j :: 0 <= j < n ==> ColumnSeen(c, i, j, y[j], v[j])
    {
      for j := 0 to n
        invariant forall k :: 0 <= k < j ==> ColumnSeen(c, i + 1, k, y[k], v[k])
        invariant forall k :: j <= k < n ==> ColumnSeen(c, i, k, y[k], v[k])
      {
        var cost := c[i][j];
        if cost < v[j] {
          v[j] := cost;
          y[j] := i;
        }
      }
    }
  }

  /** Columns are taken from the right: a row keeps its rightmost column, later ones are given up. */
  method ClaimRows(n: nat, x: array<int>, y: array<int>, unique: array<bool>)
    requires n > 0 && x.Length == y.Length == unique.Length == n && x != y
    requires forall j :: 0 <= j < n ==> 0 <= y[j] < n
    requires forall i :: 0 <= i < n ==> x[i] == -1 && unique[i]
    modifies x, y, unique
    ensures Matching(x[..], y[..], n)
    ensures forall i :: 0 <= i < n ==> -1 <= x[i] < n && (x[i] >= 0 ==> y[x[i]] == i)
    ensures forall j :: 0 <= j < n ==> y[j] == -1 || y[j] == old(y[j])
    ensures forall j :: 0 <= j < n ==> x[old(y[j])] >= j
    ensures forall j :: 0 <= j < n && y[j] == -1 ==> !unique[old(y[j])]
  {
    var j := n;
    while j > 0
      invariant 0 <= j <= n
      invariant forall k :: 0 <= k < j ==> y[k] == old(y[k])
      invariant forall k :: j <= k < n ==> (y[k] == -1 && !unique[old(y[k])]) || (y[k] == old(y[k]) && x[y[k]] == k)
      invariant forall i :: 0 <= i < n ==> x[i] == -1 || (j <= x[i] < n && y[x[i]] == i)
      invariant forall k :: j <= k < n ==> x[old(y[k])] >= k
    {
      j := j - 1;
      var i := y[j];
      if x[i] < 0 {
        x[i] := j;
      } else {
        unique[i] := false;
        y[j] := -1;
      }
    }
  }

  /** The least reduced cost of row `i` outside column `j`, capped by LARGE. */
  method LeastElsewhere(c: Matrix, v: array<real>, i: nat, j: nat) returns (min: real)
    requires Square(c) && v.Length == |c| && i < |c| && j < |c|
    requires forall k :: 0 <= k < |c| ==> v[k] <= c[i][k]
    ensures 0.0 <= min <= LARGE
    ensures forall k :: 0 <= k < |c| && k != j ==> min <= c[i][k] - v[k]
    ensures min == LARGE || exists k :: 0 <= k < |c| && k != j && min == c[i][k] - v[k]
  {
    min := LARGE;
    for j2 := 0 to |c|
      invariant 0.0 <= min <= LARGE
      invariant forall k :: 0 <= k < j2 && k != j ==> min <= c[i][k] - v[k]
      invariant min == LARGE || exists k :: 0 <= k < j2 && k != j && min == c[i][k] - v[k]
    {
      if j2 == j {
        continue;
      }
      var cost := c[i][j2] - v[j2];
      if cost < min {
        min := cost;
      }
    }
  }

  /** Lowering the price of the column of a row whose reduced cost there is zero. */
  lemma TransferKeepsTight(c: Matrix, v: seq<real>, y: seq<int>, lo: real, i: int, j: int, min: real)
    requires Tight(c, v, y) && Priced(c, v, y, lo)
    requires 0 <= i < |c| && 0 <= j < |c| && y[j] == i && v[j] == c[i][j] && 0.0 <= min
    requires forall j' :: 0 <= j' < |c| && y[j'] == i ==> j' == j
    requires forall k :: 0 <= k < |c| && k != j ==> min <= c[i][k] - v[k]
    ensures Tight(c, v[j := v[j] - min], y) && Priced(c, v[j := v[j] - min], y, lo)
  {
  }

  /** Moves the price of a row's only cheapest column down to the second cheapest. */
  method TransferRow(c: Matrix, y: array<int>, v: array<real>, i: nat, j: nat, ghost lo: real)
    requires i < |c| && j < |c| == y.Length == v.Length
    requires Tight(c, v[..], y[..]) && Priced(c, v[..], y[..], lo) && y[j] == i && v[j] == c[i][j]
    requires forall j' :: 0 <= j' < |c| && y[j'] == i ==> j' == j
    modifies v
    ensures Tight(c, v[..], y[..]) && Priced(c, v[..], y[..], lo)
    ensures forall k :: 0 <= k < |c| && k != j ==> v[k] == old(v[k])
  {
    var min := LeastElsewhere(c, v, i, j);
    ghost var w := v[..];
    TransferKeepsTight(c, w, y[..], lo, i, j, min);
    v[j] := v[j] - min;
    assert v[..] == w[j := w[j] - min];
  }

  lemma CollectFree(free: seq<int>, x: seq<int>, y: seq<int>, i: nat)
    requires i < |x| && Within(free, i) && Distinct(free)
    requires forall r :: 0 <= r < i ==> (r in free <==> !Matched(x, y, r))
    ensures !Matched(x, y, i) ==> Within(free + [i], i + 1) && Distinct(free + [i])
    ensures !Matched(x, y, i) ==> forall r :: 0 <= r <= i ==> (r in free + [i] <==> !Matched(x, y, r))
    ensures Matched(x, y, i) ==> forall r :: 0 <= r <= i ==> (r in free <==> !Matched(x, y, r))
  {
  }

  method ReductionTransfer(c: Matrix, free_rows: array<int>, x: array<int>, y: array<int>, v: array<real>,
                           unique: array<bool>, ghost lo: real)
    returns (n_free_rows: nat)
    requires Square(c) && free_rows.Length == x.Length == y.Length == v.Length == unique.Length == |c|
    requires free_rows != x && free_rows != y
    requires Matching(x[..], y[..], |c|) && Tight(c, v[..], y[..]) && Priced(c, v[..], y[..], lo)
    requires forall i :: 0 <= i < |c| ==> -1 <= x[i] < |c| && (x[i] >= 0 ==> y[x[i]] == i && v[x[i]] == c[i][x[i]])
    modifies free_rows, v
    ensures n_free_rows <= |c| && FreeRows(free_rows[..n_free_rows], x[..], y[..])
    ensures Tight(c, v[..], y[..]) && Priced(c, v[..], y[..], lo)
  {
    n_free_rows := 0;
    var n := |c|;
    for i := 0 to n
      invariant n_free_rows <= i
      invariant Within(free_rows[..n_free_rows], i) && Distinct(free_rows[..n_free_rows])
      invariant forall r :: 0 <= r < i ==> (r in free_rows[..n_free_rows] <==> !Matched(x[..], y[..], r))
      invariant Tight(c, v[..], y[..]) && Priced(c, v[..], y[..], lo)
      invariant forall r :: i <= r < n && x[r] >= 0 ==> v[x[r]] == c[r][x[r]]
    {
      CollectFree(free_rows[..n_free_rows], x[..], y[..], i);
      if x[i] < 0 {
        ghost var before := free_rows[..n_free_rows];
        free_rows[n_free_rows] := i;
        n_free_rows := n_free_rows + 1;
        assert free_rows[..n_free_rows] == before + [i];
      } else if unique[i] {
        TransferRow(c, y, v, i, x[i], lo);
      }
    }
  }

  /** `_ccrrt_dense`: prices every column, matches rows to their cheapest columns and
      returns how many rows stay free; they are listed at the front of `free_rows`. */
  method CcrrtDense(c: Matrix, free_rows: array<int>, x: array<int>, y: array<int>, v: array<real>, ghost lo: real)
    returns (n_free_rows: nat)
    requires Square(c) && |c| > 0 && free_rows.Length == x.Length == y.Length == v.Length == |c|
    requires free_rows != x && free_rows != y && x != y
    requires forall i, j :: 0 <= i < |c| && 0 <= j < |c| ==> lo <= c[i][j] < LARGE
    modifies free_rows, x, y, v
    ensures n_free_rows <= |c| && Partial(c, free_rows[..n_free_rows], x[..], y[..], v[..], lo)
  {
    var n := |c|;
    for i := 0 to n
      invariant forall k :: 0 <= k < i ==> x[k] == -1
    {
      x[i] := -1;
    }
    ColumnMinima(c, y, v);
    var unique := new bool[n](_ => true);
    ClaimRows(n, x, y, unique);
    n_free_rows := ReductionTransfer(c, free_rows, x, y, v, unique, lo);
  }
}
