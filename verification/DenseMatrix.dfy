/** Dense matrices over the reals, and products with sparse rows. */
module DenseMatrix {
  type Vector = seq<real>
  type Matrix = seq<seq<real>>

  ghost predicate Dim(a: Matrix, r: nat, c: nat) {
    |a| == r && forall i :: 0 <= i < r ==> |a[i]| == c
  }

  function Dot(u: Vector, w: Vector): real
    requires |u| == |w|
  {
    if u == [] then 0.0 else Dot(u[..|u| - 1], w[..|w| - 1]) + u[|u| - 1] * w[|w| - 1]
  }

  function Column(a: Matrix, c: nat, j: nat): (v: Vector)
    requires Dim(a, |a|, c) && j < c
    ensures |v| == |a| && forall l :: 0 <= l < |a| ==> v[l] == a[l][j]
  {
    seq(|a|, l requires 0 <= l < |a| => a[l][j])
  }

  function Transpose(a: Matrix, c: nat): (t: Matrix)
    requires Dim(a, |a|, c)
    ensures Dim(t, c, |a|) && forall i, j :: 0 <= i < c && 0 <= j < |a| ==> t[i][j] == a[j][i]
  {
    seq(c, j requires 0 <= j < c => Column(a, c, j))
  }

  function Times(a: Matrix, b: Matrix, c: nat): (p: Matrix)
    requires Dim(a, |a|, |b|) && Dim(b, |b|, c)
    ensures Dim(p, |a|, c)
    ensures forall i, j :: 0 <= i < |a| && 0 <= j < c ==> p[i][j] == Dot(a[i], Column(b, c, j))
  {
    seq(|a|, i requires 0 <= i < |a| => seq(c, j requires 0 <= j < c => Dot(a[i], Column(b, c, j))))
  }

  function Plus(a: Matrix, b: Matrix, c: nat): (p: Matrix)
    requires Dim(a, |a|, c) && Dim(b, |a|, c)
    ensures Dim(p, |a|, c) && forall i, j :: 0 <= i < |a| && 0 <= j < c ==> p[i][j] == a[i][j] + b[i][j]
  {
    seq(|a|, i requires 0 <= i < |a| => seq(c, j requires 0 <= j < c => a[i][j] + b[i][j]))
  }

  function Minus(a: Matrix, b: Matrix, c: nat): (p: Matrix)
    requires Dim(a, |a|, c) && Dim(b, |a|, c)
    ensures Dim(p, |a|, c) && forall i, j :: 0 <= i < |a| && 0 <= j < c ==> p[i][j] == a[i][j] - b[i][j]
  {
    seq(|a|, i requires 0 <= i < |a| => seq(c, j requires 0 <= j < c => a[i][j] - b[i][j]))
  }

  function Diagonal(v: Vector): (d: Matrix)
    ensures Dim(d, |v|, |v|)
    ensures forall i, j :: 0 <= i < |v| && 0 <= j < |v| ==> d[i][j] == if i == j then v[i] else 0.0
  {
    seq(|v|, i requires 0 <= i < |v| => seq(|v|, j requires 0 <= j < |v| => if i == j then v[i] else 0.0))
  }

  lemma PositiveProduct(x: real, y: real, p: real)
    requires p == x * y && x > 0.0 && y > 0.0
    ensures p > 0.0
  {
  }

  lemma SquareSign(x: real, s: real)
    requires s == x * x
    ensures s >= 0.0 && (s > 0.0 <==> x != 0.0)
  {
    if x > 0.0 {
      PositiveProduct(x, x, s);
    } else if x < 0.0 {
      PositiveProduct(-x, -x, s);
    }
  }

  function Square(x: real): (s: real)
    ensures s >= 0.0
    ensures s > 0.0 <==> x != 0.0
  {
    SquareSign(x, x * x);
    x * x
  }

  function Squares(v: Vector): (s: Vector)
    ensures |s| == |v| && forall i :: 0 <= i < |v| ==> s[i] == Square(v[i])
  {
    seq(|v|, i requires 0 <= i < |v| => Square(v[i]))
  }

  lemma {:induction false} DotZero(u: Vector, w: Vector)
    requires |u| == |w| && forall l :: 0 <= l < |u| ==> u[l] == 0.0 || w[l] == 0.0
    ensures Dot(u, w) == 0.0
  {
    if u != [] { DotZero(u[..|u| - 1], w[..|w| - 1]); }
  }

  /** Only one position contributes. */
  lemma {:induction false} DotOne(u: Vector, w: Vector, p: nat)
    requires |u| == |w| && p < |u| && forall l :: 0 <= l < |u| && l != p ==> u[l] == 0.0 || w[l] == 0.0
    ensures Dot(u, w) == u[p] * w[p]
  {
    var k := |u| - 1;
    if p == k { DotZero(u[..k], w[..k]); } else { DotOne(u[..k], w[..k], p); }
  }

  /** Only two positions contribute. */
  lemma {:induction false} DotTwo(u: Vector, w: Vector, p: nat, q: nat)
    requires |u| == |w| && p < q < |u| && forall l :: 0 <= l < |u| && l != p && l != q ==> u[l] == 0.0 || w[l] == 0.0
    ensures Dot(u, w) == u[p] * w[p] + u[q] * w[q]
  {
    var k := |u| - 1;
    if q == k { DotOne(u[..k], w[..k], p); } else { DotTwo(u[..k], w[..k], p, q); }
  }
}
