/** Square assignment problems: matchings, prices, and optimality by linear-programming duality. */
module Assignment {
  import opened Permutations

  type Matrix = seq<seq<real>>

  ghost predicate Square(c: Matrix) {
    forall i :: 0 <= i < |c| ==> |c[i]| == |c|
  }

  /** The cost of a complete assignment: row `i` takes column `p[i]`. */
  ghost function Cost(c: Matrix, p: seq<int>): real
    requires Square(c) && |p| <= |c| && Within(p, |c|)
  {
    if p == [] then 0.0
    else Cost(c, p[..|p| - 1]) + c[|p| - 1][p[|p| - 1]]
  }

  ghost predicate Cheapest(c: Matrix, x: seq<int>)
    requires Square(c) && IsPermutation(x, |c|)
  {
    forall p :: IsPermutation(p, |c|) ==> Cost(c, x) <= Cost(c, p)
  }

  /** Column `j` has the least reduced cost `c[i][.] - v[.]` of row `i`. */
  ghost predicate RowMin(c: Matrix, v: seq<real>, i: int, j: int)
    requires Square(c) && |v| == |c| && 0 <= i < |c| && 0 <= j < |c|
  {
    forall k :: 0 <= k < |c| ==> c[i][j] - v[j] <= c[i][k] - v[k]
  }

  /** `y[j]` is the row of column `j` or -1. The column `x[i]` noted for a row is only
      binding when `y` agrees: the note of a displaced row stays behind. */
  ghost predicate Matching(x: seq<int>, y: seq<int>, n: nat) {
    && |x| == n && |y| == n
    && (forall j :: 0 <= j < n ==> -1 <= y[j] < n)
    && (forall j :: 0 <= j < n && y[j] >= 0 ==> x[y[j]] == j)
  }

  ghost predicate Matched(x: seq<int>, y: seq<int>, i: int)
    requires 0 <= i < |x|
  {
    0 <= x[i] < |y| && y[x[i]] == i
  }

  ghost predicate Complete(x: seq<int>, y: seq<int>) {
    forall i :: 0 <= i < |x| ==> 0 <= x[i] < |y| && y[x[i]] == i
  }

  /** Every assigned column is a cheapest column of its row at the current prices. */
  ghost predicate Tight(c: Matrix, v: seq<real>, y: seq<int>) {
    && Square(c) && |v| == |c| && |y| == |c|
    && (forall j :: 0 <= j < |c| ==> -1 <= y[j] < |c|)
    && (forall j :: 0 <= j < |c| && y[j] >= 0 ==> RowMin(c, v, y[j], j))
  }

  /** When every row is matched, `x` and `y` are inverse permutations. */
  lemma CompleteMatching(x: seq<int>, y: seq<int>, n: nat)
    requires Matching(x, y, n)
    requires Complete(x, y)
    ensures IsPermutation(x, n) && IsPermutation(y, n)
    ensures forall i :: 0 <= i < n ==> y[x[i]] == i
    ensures forall j :: 0 <= j < n ==> x[y[j]] == j
  {
    forall j | 0 <= j < n
      ensures y[j] >= 0
    {
      PermutationCovers(x, n, j);
    }
  }

  lemma {:induction false} ReducedCostOrder(c: Matrix, v: seq<real>, x: seq<int>, p: seq<int>)
    requires Square(c) && |v| == |c| && |x| == |p| <= |c| && Within(x, |c|) && Within(p, |c|)
    requires forall i :: 0 <= i < |x| ==> RowMin(c, v, i, x[i])
    ensures Cost(c, x) - SumAt(v, x) <= Cost(c, p) - SumAt(v, p)
  {
    if x != [] {
      var k := |x| - 1;
      ReducedCostOrder(c, v, x[..k], p[..k]);
      assert RowMin(c, v, k, x[k]);
    }
  }

  /** Weak duality: a complete matching that is tight under some prices is a cheapest assignment. */
  lemma TightIsCheapest(c: Matrix, v: seq<real>, x: seq<int>, y: seq<int>)
    requires Tight(c, v, y) && Matching(x, y, |c|)
    requires Complete(x, y)
    ensures IsPermutation(x, |c|) && IsPermutation(y, |c|)
    ensures forall i :: 0 <= i < |c| ==> y[x[i]] == i
    ensures forall j :: 0 <= j < |c| ==> x[y[j]] == j
    ensures Cheapest(c, x)
  {
    CompleteMatching(x, y, |c|);
    forall p | IsPermutation(p, |c|)
      ensures Cost(c, x) <= Cost(c, p)
    {
      ReducedCostOrder(c, v, x, p);
      SumAtPermutation(v, x);
      SumAtPermutation(v, p);
    }
  }
}
