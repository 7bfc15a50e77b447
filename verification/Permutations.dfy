/** Injective index sequences: the pigeonhole principle and sums over permutations. */
module Permutations {

  ghost predicate Within(s: seq<int>, n: nat) {
    forall i :: 0 <= i < |s| ==> 0 <= s[i] < n
  }

  ghost predicate Distinct<T>(s: seq<T>) {
    forall i, j :: 0 <= i < j < |s| ==> s[i] != s[j]
  }

  ghost predicate Ascending(s: seq<int>) {
    forall i, j :: 0 <= i < j < |s| ==> s[i] < s[j]
  }

  ghost predicate IsPermutation(p: seq<int>, n: nat) {
    |p| == n && Within(p, n) && Distinct(p)
  }

  function Without<T>(s: seq<T>, k: nat): seq<T>
    requires k < |s|
  {
    s[..k] + s[k + 1..]
  }

  /** An injective sequence of indices below `n` has at most `n` elements. */
  lemma {:induction false} Pigeonhole(s: seq<int>, n: nat)
    requires Within(s, n) && Distinct(s)
    ensures |s| <= n
  {
    if s == [] {
    } else if n - 1 in s {
      var k :| 0 <= k < |s| && s[k] == n - 1;
      Pigeonhole(Without(s, k), n - 1);
    } else {
      assert 0 <= s[0] < n;
      Pigeonhole(s, n - 1);
    }
  }

  /** A permutation of the indices below `n` reaches every one of them. */
  lemma PermutationCovers(p: seq<int>, n: nat, j: int)
    requires IsPermutation(p, n) && 0 <= j < n
    ensures j in p
  {
    if j !in p {
      Pigeonhole(p + [j], n);
    }
  }

  function Swapped<T>(s: seq<T>, a: nat, b: nat): seq<T>
    requires a < |s| && b < |s|
  {
    s[a := s[b]][b := s[a]]
  }

  lemma SwappedPermutation(p: seq<int>, n: nat, a: nat, b: nat)
    requires IsPermutation(p, n) && a < n && b < n
    ensures IsPermutation(Swapped(p, a, b), n)
  {
  }

  /** The sum of `v` at the positions listed in `p`. */
  ghost function SumAt(v: seq<real>, p: seq<int>): real
    requires Within(p, |v|)
  {
    if p == [] then 0.0 else SumAt(v, p[..|p| - 1]) + v[p[|p| - 1]]
  }

  ghost function Sum(v: seq<real>): real {
    if v == [] then 0.0 else Sum(v[..|v| - 1]) + v[|v| - 1]
  }

  lemma {:induction false} SumAtWithout(v: seq<real>, p: seq<int>, k: nat)
    requires Within(p, |v|) && k < |p|
    ensures SumAt(v, p) == SumAt(v, Without(p, k)) + v[p[k]]
  {
    var last := |p| - 1;
    if k == last {
      assert Without(p, k) == p[..last];
    } else {
      SumAtWithout(v, p[..last], k);
      assert Without(p, k)[..last - 1] == Without(p[..last], k);
      assert Without(p, k)[last - 1] == p[last];
    }
  }

  lemma {:induction false} SumAtPrefix(v: seq<real>, p: seq<int>, m: nat)
    requires m <= |v| && Within(p, m)
    ensures SumAt(v, p) == SumAt(v[..m], p)
  {
    if p != [] { SumAtPrefix(v, p[..|p| - 1], m); }
  }

  /** Reordering does not change a sum. */
  lemma {:induction false} SumAtPermutation(v: seq<real>, p: seq<int>)
    requires IsPermutation(p, |v|)
    ensures SumAt(v, p) == Sum(v)
  {
    if |v| > 0 {
      var last := |v| - 1;
      PermutationCovers(p, |v|, last);
      var k :| 0 <= k < |p| && p[k] == last;
      var rest := Without(p, k);
      SumAtWithout(v, p, k);
      SumAtPrefix(v, rest, last);
      SumAtPermutation(v[..last], rest);
    }
  }
}
