/** Thresholded partial matching, reduced to a square assignment problem by padding. */
module LinearAssignment {
  import opened Permutations
  import opened Assignment
  import opened Lapjv

  ghost predicate Rectangular(cost: Matrix, cols: nat) {
    forall i :: 0 <= i < |cost| ==> |cost[i]| == cols
  }

  /** Every row takes a column of its own or none (-1). */
  ghost predicate PartialMatching(m: seq<int>, rows: nat, cols: nat) {
    && |m| == rows
    && (forall i :: 0 <= i < rows ==> -1 <= m[i] < cols)
    && (forall i, k :: 0 <= i < k < rows && m[i] >= 0 ==> m[i] != m[k])
  }

  /** What matching costs against leaving rows and columns alone: each pair counts cost - thresh. */
  ghost function Gain(cost: Matrix, thresh: real, m: seq<int>): real
    requires |m| <= |cost| && forall i :: 0 <= i < |m| ==> m[i] < |cost[i]|
  {
    if m == [] then 0.0
    else Gain(cost, thresh, m[..|m| - 1]) + PairGain(cost, thresh, m, |m| - 1)
  }

  ghost function PairGain(cost: Matrix, thresh: real, m: seq<int>, i: nat): real
    requires i < |m| <= |cost| && m[i] < |cost[i]|
  {
    if m[i] >= 0 then cost[i][m[i]] - thresh else 0.0
  }

  ghost predicate BestMatching(cost: Matrix, thresh: real, m: seq<int>, cols: nat)
    requires Rectangular(cost, cols) && PartialMatching(m, |cost|, cols)
  {
    forall m' :: PartialMatching(m', |cost|, cols) ==> Gain(cost, thresh, m) <= Gain(cost, thresh, m')
  }

  /** The padded entry: half the threshold beside and below the matrix, zero in the far corner. */
  ghost function PaddedEntry(cost: Matrix, cols: nat, thresh: real, i: nat, j: nat): real
    requires Rectangular(cost, cols)
  {
    if i < |cost| && j < cols then cost[i][j]
    else if i >= |cost| && j >= cols then 0.0
    else thresh / 2.0
  }

  ghost predicate Padded(p: Matrix, cost: Matrix, cols: nat, thresh: real)
    requires Rectangular(cost, cols)
  {
    && |p| == |cost| + cols && Square(p)
    && forall i, j :: 0 <= i < |p| && 0 <= j < |p| ==> p[i][j] == PaddedEntry(cost, cols, thresh, i, j)
  }

  /** The rows of the original matrix keep their original columns only. */
  ghost function Restrict(x: seq<int>, rows: nat, cols: nat): (m: seq<int>)
    requires rows <= |x|
  {
    seq(rows, i requires 0 <= i < rows => if x[i] < cols then x[i] else -1)
  }

  ghost function Halves(n: nat, cols: nat, h: real): (b: seq<real>)
    ensures |b| == n && forall j :: 0 <= j < n ==> b[j] == if j < cols then h else 0.0
  {
    seq(n, j => if j < cols then h else 0.0)
  }

  /** What the padding adds to every complete assignment: half a threshold per original row and column. */
  ghost function Offset(n: nat, rows: nat, cols: nat, thresh: real): real {
    Sum(Halves(n, rows, thresh / 2.0)) + Sum(Halves(n, cols, thresh / 2.0))
  }

  lemma PaddedRow(p: Matrix, cost: Matrix, cols: nat, thresh: real, i: nat, j: nat)
    requires Rectangular(cost, cols) && Padded(p, cost, cols, thresh) && i < |p| && j < |p|
    ensures p[i][j] == (if i < |cost| && j < cols then cost[i][j] - thresh else 0.0)
      + (if i < |cost| then thresh / 2.0 else 0.0) + (if j < cols then thresh / 2.0 else 0.0)
  {
  }

  ghost function Min(a: nat, b: nat): nat { if a < b then a else b }

  lemma GainNextRow(cost: Matrix, cols: nat, thresh: real, x: seq<int>, i: nat)
    requires Rectangular(cost, cols) && i < |x| && |cost| <= |x| && Within(x, |x|)
    ensures Gain(cost, thresh, Restrict(x, Min(i + 1, |cost|), cols)) ==
            Gain(cost, thresh, Restrict(x, Min(i, |cost|), cols))
      + if i < |cost| && x[i] < cols then cost[i][x[i]] - thresh else 0.0
  {
    if i < |cost| {
      assert Restrict(x, i + 1, cols)[..i] == Restrict(x, i, cols);
    }
  }

  lemma NothingRestricted(cost: Matrix, cols: nat, thresh: real, x: seq<int>)
    requires Rectangular(cost, cols) && Within(x, |x|)
    ensures Min(0, |cost|) == 0 && Gain(cost, thresh, Restrict(x, 0, cols)) == 0.0
  {
  }

  /** The cost of the first `k` rows of a complete assignment of the padded matrix. */
  lemma {:induction false} PaddedCostPrefix(p: Matrix, cost: Matrix, cols: nat, thresh: real, x: seq<int>, k: nat)
    requires Rectangular(cost, cols) && Padded(p, cost, cols, thresh)
    requires |x| == |p| && Within(x, |p|) && k <= |p|
    ensures Cost(p, x[..k]) == Gain(cost, thresh, Restrict(x, Min(k, |cost|), cols))
      + Sum(Halves(k, |cost|, thresh / 2.0)) + SumAt(Halves(|p|, cols, thresh / 2.0), x[..k])
  {
    hide Gain, Restrict, PaddedEntry, Min;
    if k == 0 {
      NothingRestricted(cost, cols, thresh, x);
    } else {
      var i := k - 1;
      PaddedCostPrefix(p, cost, cols, thresh, x, i);
      assert x[..k][..i] == x[..i];
      PaddedRow(p, cost, cols, thresh, i, x[i]);
      assert Halves(k, |cost|, thresh / 2.0)[..i] == Halves(i, |cost|, thresh / 2.0);
      GainNextRow(cost, cols, thresh, x, i);
    }
  }

  /** A complete assignment of the padded matrix costs as much as its restriction gains, up to a constant. */
  lemma PaddedCost(p: Matrix, cost: Matrix, cols: nat, thresh: real, x: seq<int>)
    requires Rectangular(cost, cols) && Padded(p, cost, cols, thresh) && IsPermutation(x, |p|)
    ensures Cost(p, x) == Gain(cost, thresh, Restrict(x, |cost|, cols)) + Offset(|p|, |cost|, cols, thresh)
  {
    PaddedCostPrefix(p, cost, cols, thresh, x, |p|);
    assert x[..|p|] == x;
    SumAtPermutation(Halves(|p|, cols, thresh / 2.0), x);
  }

  ghost function IndexOf(m: seq<int>, j: int): (k: nat)
    requires j in m
    ensures k < |m| && m[k] == j
  {
    if m[0] == j then 0 else 1 + IndexOf(m[1..], j)
  }

  /** An unmatched row or column is its own partner's padding; a matched pair leaves its two paddings to each other. */
  ghost function ComplementAt(m: seq<int>, cols: nat, i: nat): int {
    if i < |m| then (if m[i] >= 0 then m[i] else cols + i)
    else if i - |m| in m then cols + IndexOf(m, i - |m|)
    else i - |m|
  }

  /** The complete assignment that stands for a partial matching. */
  ghost function Complement(m: seq<int>, cols: nat): (x: seq<int>)
    ensures |x| == |m| + cols && forall i :: 0 <= i < |x| ==> x[i] == ComplementAt(m, cols, i)
  {
    seq(|m| + cols, i requires 0 <= i => ComplementAt(m, cols, i))
  }

  lemma ComplementPermutation(m: seq<int>, cols: nat)
    requires PartialMatching(m, |m|, cols)
    ensures IsPermutation(Complement(m, cols), |m| + cols)
    ensures Restrict(Complement(m, cols), |m|, cols) == m
  {
  }

  /** A cheapest assignment of the padded matrix is a best thresholded matching. */
  lemma PaddedIsBest(p: Matrix, cost: Matrix, cols: nat, thresh: real, x: seq<int>)
    requires Rectangular(cost, cols) && Padded(p, cost, cols, thresh) && IsPermutation(x, |p|) && Cheapest(p, x)
    ensures PartialMatching(Restrict(x, |cost|, cols), |cost|, cols)
    ensures BestMatching(cost, thresh, Restrict(x, |cost|, cols), cols)
  {
    forall m | PartialMatching(m, |cost|, cols)
      ensures Gain(cost, thresh, Restrict(x, |cost|, cols)) <= Gain(cost, thresh, m)
    {
      ComplementPermutation(m, cols);
      PaddedCost(p, cost, cols, thresh, x);
      PaddedCost(p, cost, cols, thresh, Complement(m, cols));
    }
  }

  lemma {:induction false} GainWithout(cost: Matrix, thresh: real, m: seq<int>, i: nat)
    requires i < |m| <= |cost| && forall k :: 0 <= k < |m| ==> m[k] < |cost[k]|
    ensures Gain(cost, thresh, m[i := -1]) == Gain(cost, thresh, m) - PairGain(cost, thresh, m, i)
  {
    var k := |m| - 1;
    if i == k {
      assert m[i := -1][..k] == m[..k];
    } else {
      GainWithout(cost, thresh, m[..k], i);
      assert m[i := -1][..k] == m[..k][i := -1];
    }
  }

  /** No pair of a best matching costs more than the threshold. */
  lemma BestPairsWithinThreshold(cost: Matrix, thresh: real, m: seq<int>, cols: nat, i: nat)
    requires Rectangular(cost, cols) && PartialMatching(m, |cost|, cols) && BestMatching(cost, thresh, m, cols)
    requires i < |m| && m[i] >= 0
    ensures cost[i][m[i]] <= thresh
  {
    GainWithout(cost, thresh, m, i);
    assert PartialMatching(m[i := -1], |cost|, cols);
  }

  /** The row of every original column, or -1 for a column left to its padding. */
  ghost predicate Inverse(m: seq<int>, w: seq<int>) {
    && (forall i :: 0 <= i < |m| ==> -1 <= m[i] < |w| && (m[i] >= 0 ==> w[m[i]] == i))
    && (forall j :: 0 <= j < |w| ==> -1 <= w[j] < |m| && (w[j] >= 0 ==> m[w[j]] == j))
  }

  /** Builds the padded matrix: half the threshold everywhere, then the zero corner, then the costs. */
  method ExtendCost(cost: Matrix, cols: nat, thresh: real) returns (p: Matrix)
    requires Rectangular(cost, cols)
    ensures Padded(p, cost, cols, thresh)
  {
    var rows := |cost|;
    var n := rows + cols;
    var a := new real[n, n];
    for i := 0 to n
      invariant forall k, j :: 0 <= k < i && 0 <= j < n ==> a[k, j] == thresh / 2.0
    {
      for j := 0 to n
        invariant forall k, l :: 0 <= k < i && 0 <= l < n ==> a[k, l] == thresh / 2.0
        invariant forall l :: 0 <= l < j ==> a[i, l] == thresh / 2.0
      {
        a[i, j] := thresh / 2.0;
      }
    }
    for i := rows to n
      invariant forall k, l :: 0 <= k < n && 0 <= l < n ==>
        a[k, l] == if rows <= k < i && cols <= l then 0.0 else thresh / 2.0
    {
      for j := cols to n
        invariant forall k, l :: 0 <= k < n && 0 <= l < n ==>
          a[k, l] == if (rows <= k < i && cols <= l) || (k == i && cols <= l < j) then 0.0 else thresh / 2.0
      {
        a[i, j] := 0.0;
      }
    }
    for i := 0 to rows
      invariant forall k, l :: 0 <= k < n && 0 <= l < n && (k < i || rows <= k || cols <= l) ==>
        a[k, l] == PaddedEntry(cost, cols, thresh, k, l)
    {
      for j := 0 to cols
        invariant forall k, l :: 0 <= k < n && 0 <= l < n && (k < i || (k == i && l < j) || rows <= k || cols <= l) ==>
          a[k, l] == PaddedEntry(cost, cols, thresh, k, l)
      {
        a[i, j] := cost[i][j];
      }
    }
    p := [];
    for i := 0 to n
      invariant |p| == i && forall k :: 0 <= k < i ==> |p[k]| == n
      invariant forall k, l :: 0 <= k < i && 0 <= l < n ==> p[k][l] == PaddedEntry(cost, cols, thresh, k, l)
    {
      p := p + [seq(n, j requires 0 <= j < n reads a => a[i, j])];
    }
  }

  /** The costs of the pairs of a matching. */
  ghost function PairCost(cost: Matrix, m: seq<int>): real
    requires |m| <= |cost| && forall i :: 0 <= i < |m| ==> m[i] < |cost[i]|
  {
    if m == [] then 0.0
    else PairCost(cost, m[..|m| - 1]) + if m[|m| - 1] >= 0 then cost[|m| - 1][m[|m| - 1]] else 0.0
  }

  /** All entries, and what the padding adds, fit the sentinel of the solver. */
  ghost predicate Solvable(cost: Matrix, thresh: real, lo: real, hi: real) {
    && lo <= 0.0 <= hi && lo <= thresh / 2.0 <= hi && hi < 1000000.0 && 2.0 * (hi - lo) < 1000000.0
    && forall i, j :: 0 <= i < |cost| && 0 <= j < |cost[i]| ==> lo <= cost[i][j] <= hi
  }

  /** Solves the padded problem and cuts both solutions back to the original matrix. */
  method SolveExtended(cost: Matrix, cols: nat, thresh: real, ghost lo: real, ghost hi: real)
    returns (rowsol: seq<int>, colsol: seq<int>)
    requires |cost| > 0 && Rectangular(cost, cols) && Solvable(cost, thresh, lo, hi)
    ensures |colsol| == cols && PartialMatching(rowsol, |cost|, cols) && Inverse(rowsol, colsol)
    ensures BestMatching(cost, thresh, rowsol, cols)
  {
    var n_rows := |cost|;
    var p := ExtendCost(cost, cols, thresh);
    var n := |p|;
    assert forall i, j :: 0 <= i < n && 0 <= j < n ==> p[i][j] == PaddedEntry(cost, cols, thresh, i, j);
    var x, y := new int[n], new int[n];
    var ret := LapjvInternal(p, x, y, lo, hi);
    PaddedIsBest(p, cost, cols, thresh, x[..]);
    rowsol := seq(n_rows, i requires 0 <= i < n_rows reads x => if x[i] >= cols then -1 else x[i]);
    colsol := seq(cols, j requires 0 <= j < cols reads y => if y[j] >= n_rows then -1 else y[j]);
    assert rowsol == Restrict(x[..], n_rows, cols);
  }

  method TotalCost(cost: Matrix, m: seq<int>) returns (opt: real)
    requires |m| <= |cost| && forall i :: 0 <= i < |m| ==> -1 <= m[i] < |cost[i]|
    ensures opt == PairCost(cost, m)
  {
    opt := 0.0;
    for i := 0 to |m|
      invariant opt == PairCost(cost, m[..i])
    {
      assert m[..i + 1][..i] == m[..i];
      if m[i] != -1 {
        opt := opt + cost[i][m[i]];
      }
    }
    assert m[..|m|] == m;
  }

  /** `BYTETracker::lapjv` with an extended cost: the best thresholded matching, from both sides,
      and its cost. A matrix with empty rows is not taller when extended; the code takes that for
      a square problem solved as it stands and leaves the row solutions zero. */
  method LapjvExtended(cost: Matrix, cols: nat, thresh: real, ghost lo: real, ghost hi: real)
    returns (rowsol: seq<int>, colsol: seq<int>, opt: real)
    requires |cost| > 0 && Rectangular(cost, cols) && Solvable(cost, thresh, lo, hi)
    ensures |rowsol| == |cost| && |colsol| == cols
    ensures cols > 0 ==> PartialMatching(rowsol, |cost|, cols) && Inverse(rowsol, colsol)
    ensures cols > 0 ==> BestMatching(cost, thresh, rowsol, cols) && opt == PairCost(cost, rowsol)
    ensures cols == 0 ==> forall i :: 0 <= i < |cost| ==> rowsol[i] == 0
  {
    var n := |cost| + cols;
    opt := 0.0;
    if n != |cost| {
      rowsol, colsol := SolveExtended(cost, cols, thresh, lo, hi);
      opt := TotalCost(cost, rowsol);
    } else {
      rowsol, colsol := seq(|cost|, _ => 0), [];
      for i := 0 to |cost| {
        opt := opt + thresh / 2.0;
      }
    }
  }

  /** The pairs (row, column) of a matching, by row. */
  function Pairs(m: seq<int>): (r: seq<(int, int)>) {
    if m == [] then []
    else Pairs(m[..|m| - 1]) + if m[|m| - 1] >= 0 then [(|m| - 1, m[|m| - 1])] else []
  }

  /** The positions without a partner, in order. */
  function Unset(m: seq<int>): (r: seq<int>) {
    if m == [] then [] else Unset(m[..|m| - 1]) + if m[|m| - 1] < 0 then [|m| - 1] else []
  }

  function Range(n: nat): (r: seq<int>)
    ensures |r| == n && forall i :: 0 <= i < n ==> r[i] == i
  {
    seq(n, i => i)
  }

  lemma {:induction false} PairsExactly(m: seq<int>, i: int, j: int)
    ensures (i, j) in Pairs(m) <==> 0 <= i < |m| && m[i] == j && j >= 0
  {
    if m != [] { PairsExactly(m[..|m| - 1], i, j); }
  }

  lemma {:induction false} UnsetExactly(m: seq<int>, i: int)
    ensures i in Unset(m) <==> 0 <= i < |m| && m[i] < 0
  {
    if m != [] { UnsetExactly(m[..|m| - 1], i); }
  }

  method ListPairs(m: seq<int>) returns (matches: seq<(int, int)>, unmatched: seq<int>)
    ensures matches == Pairs(m) && unmatched == Unset(m)
  {
    matches, unmatched := [], [];
    for i := 0 to |m|
      invariant matches == Pairs(m[..i]) && unmatched == Unset(m[..i])
    {
      assert m[..i + 1][..i] == m[..i];
      if m[i] >= 0 {
        matches := matches + [(i, m[i])];
      } else {
        unmatched := unmatched + [i];
      }
    }
    assert m[..|m|] == m;
  }

  method ListUnset(w: seq<int>) returns (unmatched: seq<int>)
    ensures unmatched == Unset(w)
  {
    unmatched := [];
    for i := 0 to |w|
      invariant unmatched == Unset(w[..i])
    {
      assert w[..i + 1][..i] == w[..i];
      if w[i] < 0 {
        unmatched := unmatched + [i];
      }
    }
    assert w[..|w|] == w;
  }

  function Nobody(n: nat): (m: seq<int>)
    ensures |m| == n && forall i :: 0 <= i < n ==> m[i] == -1
  {
    seq(n, _ => -1)
  }

  lemma {:induction false} NobodyMatched(n: nat)
    ensures Pairs(Nobody(n)) == [] && Unset(Nobody(n)) == Range(n)
  {
    if n > 0 {
      NobodyMatched(n - 1);
      assert Nobody(n)[..n - 1] == Nobody(n - 1);
      assert Range(n) == Range(n - 1) + [n - 1];
    }
  }

  method ListAll(n: nat) returns (r: seq<int>)
    ensures r == Range(n)
  {
    r := [];
    for i := 0 to n
      invariant r == Range(i)
    {
      r := r + [i];
    }
  }

  /** The three lists split the rows and the columns: everything is in a pair or left over, never both. */
  lemma ListsPartition(m: seq<int>, w: seq<int>)
    requires Inverse(m, w)
    ensures forall i :: 0 <= i < |m| ==> (i in Unset(m) <==> forall j :: (i, j) !in Pairs(m))
    ensures forall j :: 0 <= j < |w| ==> (j in Unset(w) <==> forall i :: (i, j) !in Pairs(m))
    ensures forall i, j :: (i, j) in Pairs(m) ==> 0 <= i < |m| && 0 <= j < |w|
    ensures forall i, j, k :: (i, j) in Pairs(m) && (i, k) in Pairs(m) ==> j == k
    ensures forall i, j, k :: (i, j) in Pairs(m) && (k, j) in Pairs(m) ==> i == k
  {
    forall i, j
      ensures (i, j) in Pairs(m) <==> 0 <= i < |m| && m[i] == j && j >= 0
    {
      PairsExactly(m, i, j);
    }
    forall i | 0 <= i < |m|
      ensures i in Unset(m) <==> forall j :: (i, j) !in Pairs(m)
    {
      UnsetExactly(m, i);
      assert m[i] >= 0 ==> (i, m[i]) in Pairs(m);
    }
    forall j | 0 <= j < |w|
      ensures j in Unset(w) <==> forall i :: (i, j) !in Pairs(m)
    {
      UnsetExactly(w, j);
      assert w[j] >= 0 ==> (w[j], j) in Pairs(m);
    }
  }

  /** A matrix with rows but no columns is the only one whose zero solutions are reported as pairs. */
  lemma EmptyRowsAreMisreported(m: seq<int>, rows: nat)
    requires |m| == rows > 0 && forall i :: 0 <= i < rows ==> m[i] == 0
    ensures !PartialMatching(m, rows, 0) && (0, 0) in Pairs(m)
  {
    assert m[0] == 0;
    PairsExactly(m, 0, 0);
  }

  /** `BYTETracker::linear_assignment`. The matching `m` and its inverse `w` stand behind the lists. */
  method Assign(cost: Matrix, rows: nat, cols: nat, thresh: real, ghost lo: real, ghost hi: real)
    returns (matches: seq<(int, int)>, unmatched_a: seq<int>, unmatched_b: seq<int>, ghost m: seq<int>,
             ghost w: seq<int>)
    requires cost != [] ==> |cost| == rows && Rectangular(cost, cols) && Solvable(cost, thresh, lo, hi)
    ensures |m| == rows && |w| == cols
    ensures matches == Pairs(m) && unmatched_a == Unset(m) && unmatched_b == Unset(w)
    ensures PartialMatching(m, rows, cols) <==> cost == [] || cols > 0
    ensures cost == [] || cols > 0 ==> Inverse(m, w)
    ensures cost == [] ==> matches == []
    ensures cost != [] && cols > 0 ==> BestMatching(cost, thresh, m, cols)
    ensures cost != [] && cols == 0 ==> forall i :: 0 <= i < rows ==> m[i] == 0
  {
    if cost == [] {
      m, w := Nobody(rows), Nobody(cols);
      NobodyMatched(rows);
      NobodyMatched(cols);
      matches := [];
      unmatched_a := ListAll(rows);
      unmatched_b := ListAll(cols);
    } else {
      var rowsol, colsol, c := LapjvExtended(cost, cols, thresh, lo, hi);
      m, w := rowsol, colsol;
      if cols == 0 { EmptyRowsAreMisreported(m, rows); }
      matches, unmatched_a := ListPairs(rowsol);
      unmatched_b := ListUnset(colsol);
    }
  }
}
