/** Dense real matrices as sequences of rows, with the few operations the
    walk and search code performs on them (numpy arrays over exact reals). */
module Matrices {

  type Matrix = seq<seq<real>>

  /** `m` has `rows` rows, each of length `cols`. */
  predicate IsMatrix(m: Matrix, rows: nat, cols: nat) {
    |m| == rows && forall i :: 0 <= i < rows ==> |m[i]| == cols
  }

  predicate IsSquare(m: Matrix, n: nat) {
    IsMatrix(m, n, n)
  }

  predicate Symmetric(m: Matrix)
    requires IsSquare(m, |m|)
  {
    forall i, j :: 0 <= i < |m| && 0 <= j < |m| ==> m[i][j] == m[j][i]
  }

  /** Sum of the first `n` entries of a vector. */
  function SumTo(v: seq<real>, n: nat): real
    requires n <= |v|
  {
    if n == 0 then 0.0 else SumTo(v, n - 1) + v[n - 1]
  }

  function Sum(v: seq<real>): real {
    SumTo(v, |v|)
  }

  /** Inner product of the first `n` coordinates of two vectors. */
  function DotTo(u: seq<real>, v: seq<real>, n: nat): real
    requires n <= |u| && n <= |v|
  {
    if n == 0 then 0.0 else DotTo(u, v, n - 1) + u[n - 1] * v[n - 1]
  }

  function Dot(u: seq<real>, v: seq<real>): real
    requires |u| == |v|
  {
    DotTo(u, v, |u|)
  }

  function Column(m: Matrix, j: nat): (c: seq<real>)
    requires forall i :: 0 <= i < |m| ==> j < |m[i]|
  {
    seq(|m|, i requires 0 <= i < |m| => m[i][j])
  }

  function Transpose(m: Matrix, rows: nat, cols: nat): (t: Matrix)
    requires IsMatrix(m, rows, cols)
  {
    seq(cols, j requires 0 <= j < cols => Column(m, j))
  }

  /** Matrix product of an `n x k` and a `k x p` matrix. */
  function MatMul(a: Matrix, b: Matrix, n: nat, k: nat, p: nat): (c: Matrix)
    requires IsMatrix(a, n, k) && IsMatrix(b, k, p)
  {
    seq(n, i requires 0 <= i < n => seq(p, j requires 0 <= j < p => Dot(a[i], Column(b, j))))
  }

  function Delta(i: int, j: int): real {
    if i == j then 1.0 else 0.0
  }

  lemma DotPair(u: seq<real>, v: seq<real>)
    requires |u| == |v| == 2
    ensures Dot(u, v) == u[0] * v[0] + u[1] * v[1]
  {
    assert DotTo(u, v, 1) == u[0] * v[0];
  }

  function Identity(n: nat): (m: Matrix) {
    seq(n, i => seq(n, j => Delta(i, j)))
  }

  function Zeros(n: nat): (m: Matrix) {
    seq(n, i => seq(n, j => 0.0))
  }

  /** `c * m`, entry by entry. */
  function Scale(c: real, m: Matrix): (r: Matrix) {
    seq(|m|, i requires 0 <= i < |m| => seq(|m[i]|, j requires 0 <= j < |m[i]| => c * m[i][j]))
  }

  /** `a + b`, entry by entry, for matrices of the same shape. */
  function Add(a: Matrix, b: Matrix, rows: nat, cols: nat): (r: Matrix)
    requires IsMatrix(a, rows, cols) && IsMatrix(b, rows, cols)
  {
    seq(rows, i requires 0 <= i < rows => seq(cols, j requires 0 <= j < cols => a[i][j] + b[i][j]))
  }

  /** A real matrix is unitary (orthogonal) when its transpose is its inverse. */
  predicate IsOrthogonal(m: Matrix, n: nat)
    requires IsSquare(m, n)
  {
    MatMul(Transpose(m, n, n), m, n, n, n) == Identity(n)
  }
}
