/** One association of the tracker: overlap distances, then a best thresholded matching. */
module Association {
  import opened Permutations
  import opened Assignment
  import opened Iou
  import LA = LinearAssignment

  /** The rows and the columns that occur in a list of pairs. */
  ghost function Firsts(matches: seq<(int, int)>): set<int> {
    set k | 0 <= k < |matches| :: matches[k].0
  }

  ghost function Seconds(matches: seq<(int, int)>): set<int> {
    set k | 0 <= k < |matches| :: matches[k].1
  }

  /** Pairs of distinct rows with distinct columns. */
  ghost predicate OneToOne(matches: seq<(int, int)>, rows: nat, cols: nat) {
    && (forall k :: 0 <= k < |matches| ==> 0 <= matches[k].0 < rows && 0 <= matches[k].1 < cols)
    && (forall k, l :: 0 <= k < l < |matches| ==> matches[k].0 != matches[l].0 && matches[k].1 != matches[l].1)
  }

  lemma {:induction false} PairsOneToOne(m: seq<int>, cols: nat)
    requires LA.PartialMatching(m, |m|, cols)
    ensures OneToOne(LA.Pairs(m), |m|, cols)
  {
    if m != [] {
      var last := |m| - 1;
      PairsOneToOne(m[..last], cols);
      var prev := LA.Pairs(m[..last]);
      forall k | 0 <= k < |prev| && m[last] >= 0
        ensures prev[k].1 != m[last]
      {
        LA.PairsExactly(m[..last], prev[k].0, prev[k].1);
        assert (prev[k].0, prev[k].1) in prev;
      }
    }
  }

  lemma {:induction false} UnsetAscending(m: seq<int>)
    ensures Ascending(LA.Unset(m)) && Within(LA.Unset(m), |m|)
  {
    if m != [] { UnsetAscending(m[..|m| - 1]); }
  }

  lemma InFirsts(m: seq<int>, i: nat)
    requires i < |m|
    ensures i in Firsts(LA.Pairs(m)) <==> m[i] >= 0
  {
    var pairs := LA.Pairs(m);
    LA.PairsExactly(m, i, m[i]);
    if i in Firsts(pairs) {
      var k :| 0 <= k < |pairs| && pairs[k].0 == i;
      assert (i, pairs[k].1) in pairs;
      LA.PairsExactly(m, i, pairs[k].1);
    }
  }

  lemma InSeconds(m: seq<int>, w: seq<int>, j: nat)
    requires LA.Inverse(m, w) && j < |w|
    ensures j in Seconds(LA.Pairs(m)) <==> w[j] >= 0
  {
    var pairs := LA.Pairs(m);
    LA.PairsExactly(m, w[j], j);
    if j in Seconds(pairs) {
      var k :| 0 <= k < |pairs| && pairs[k].1 == j;
      assert (pairs[k].0, j) in pairs;
      LA.PairsExactly(m, pairs[k].0, j);
    }
  }

  lemma LeftOver(m: seq<int>, w: seq<int>)
    requires LA.Inverse(m, w)
    ensures forall i :: 0 <= i < |m| ==> (i in LA.Unset(m) <==> i !in Firsts(LA.Pairs(m)))
    ensures forall j :: 0 <= j < |w| ==> (j in LA.Unset(w) <==> j !in Seconds(LA.Pairs(m)))
  {
    forall i | 0 <= i < |m|
      ensures i in LA.Unset(m) <==> i !in Firsts(LA.Pairs(m))
    {
      InFirsts(m, i);
      LA.UnsetExactly(m, i);
    }
    forall j | 0 <= j < |w|
      ensures j in LA.Unset(w) <==> j !in Seconds(LA.Pairs(m))
    {
      InSeconds(m, w, j);
      LA.UnsetExactly(w, j);
    }
  }

  /** The matrix of overlap distances. */
  ghost function Distances(xs: seq<Box>, ys: seq<Box>): (d: Matrix)
    ensures |d| == |xs| && LA.Rectangular(d, |ys|)
  {
    seq(|xs|, i requires 0 <= i < |xs| => seq(|ys|, j requires 0 <= j < |ys| => Distance(xs[i], ys[j])))
  }

  /** The outcome of one association of `rows` boxes with `cols` boxes. */
  ghost predicate Associated(matches: seq<(int, int)>, ua: seq<int>, ub: seq<int>, rows: nat, cols: nat) {
    && OneToOne(matches, rows, cols)
    && Ascending(ua) && Within(ua, rows) && Ascending(ub) && Within(ub, cols)
    && (forall i :: 0 <= i < rows ==> (i in ua <==> i !in Firsts(matches)))
    && (forall j :: 0 <= j < cols ==> (j in ub <==> j !in Seconds(matches)))
  }

  /** The pairs are those of a matching no other gains more than, none of them beyond the threshold. */
  ghost predicate Optimal(xs: seq<Box>, ys: seq<Box>, thresh: real, m: seq<int>, matches: seq<(int, int)>)
  {
    && LA.PartialMatching(m, |xs|, |ys|) && matches == LA.Pairs(m)
    && LA.BestMatching(Distances(xs, ys), thresh, m, |ys|)
    && OneToOne(matches, |xs|, |ys|)
    && (forall k :: 0 <= k < |matches| ==> Distance(xs[matches[k].0], ys[matches[k].1]) <= thresh)
  }

  /** `iou_distance` followed by `linear_assignment`: pairs and left-overs partition both sides, no
      pair is further apart than the threshold, and no other matching gains more. */
  method Associate(xs: seq<Box>, ys: seq<Box>, thresh: real)
    returns (matches: seq<(int, int)>, ua: seq<int>, ub: seq<int>, ghost m: seq<int>)
    requires 0.0 <= thresh <= 1.0
    ensures Associated(matches, ua, ub, |xs|, |ys|)
    ensures Optimal(xs, ys, thresh, m, matches)
  {
    var d := IouDistance(xs, ys);
    assert d == [] || d == Distances(xs, ys) by {
      if d != [] {
        forall i | 0 <= i < |d| ensures d[i] == Distances(xs, ys)[i] { }
      }
    }
    ghost var w;
    matches, ua, ub, m, w := LA.Assign(d, |xs|, |ys|, thresh, 0.0, 1.0);
    PairsOneToOne(m, |ys|);
    UnsetAscending(m);
    UnsetAscending(w);
    LeftOver(m, w);
    if d == [] {
      NothingToMatch(Distances(xs, ys), thresh, m, |ys|);
    }
    WithinThreshold(xs, ys, thresh, m);
  }

  lemma {:induction false} GainOfNobody(d: Matrix, thresh: real, m: seq<int>)
    requires |m| <= |d| && forall i :: 0 <= i < |m| ==> m[i] == -1
    ensures LA.Gain(d, thresh, m) == 0.0
  {
    if m != [] { GainOfNobody(d, thresh, m[..|m| - 1]); }
  }

  /** With one side empty the empty matching is the only one. */
  lemma NothingToMatch(d: Matrix, thresh: real, m: seq<int>, cols: nat)
    requires LA.Rectangular(d, cols) && LA.PartialMatching(m, |d|, cols) && (|d| == 0 || cols == 0)
    ensures LA.BestMatching(d, thresh, m, cols)
  {
    forall m' | LA.PartialMatching(m', |d|, cols)
      ensures LA.Gain(d, thresh, m) <= LA.Gain(d, thresh, m')
    {
      GainOfNobody(d, thresh, m);
      GainOfNobody(d, thresh, m');
    }
  }

  lemma WithinThreshold(xs: seq<Box>, ys: seq<Box>, thresh: real, m: seq<int>)
    requires LA.PartialMatching(m, |xs|, |ys|) && LA.BestMatching(Distances(xs, ys), thresh, m, |ys|)
    requires OneToOne(LA.Pairs(m), |xs|, |ys|)
    ensures forall k :: 0 <= k < |LA.Pairs(m)| ==> Distance(xs[LA.Pairs(m)[k].0], ys[LA.Pairs(m)[k].1]) <= thresh
  {
    var pairs := LA.Pairs(m);
    forall k | 0 <= k < |pairs|
      ensures Distance(xs[pairs[k].0], ys[pairs[k].1]) <= thresh
    {
      var (i, j) := pairs[k];
      assert (i, j) in pairs;
      LA.PairsExactly(m, i, j);
      LA.BestPairsWithinThreshold(Distances(xs, ys), thresh, m, |ys|, i);
    }
  }
}
