/** The coin operators of the coined walk (grover_coin and hadamard_coin in
    src/coined_walk.py), as exact real matrices. */
module Coins {
  import opened Matrices
  import opened Bits

  /** The Grover diffusion coin `(2/dim) J - I` on `k` coin qubits, `dim = 2^k`. */
  function GroverCoin(k: nat): (c: Matrix)
    ensures IsSquare(c, Pow2(k))
  {
    var dim := Pow2(k);
    seq(dim, i => seq(dim, j => (2.0 / dim as real) * 1.0 - Delta(i, j)))
  }

  /** The Hadamard coin `[[1, 1], [1, -1]] / sqrt 2`, with `1 / sqrt 2` supplied
      by the caller because it is not a rational number. */
  function HadamardCoin(invSqrt2: real): (c: Matrix)
    ensures IsSquare(c, 2)
  {
    [[invSqrt2, invSqrt2], [invSqrt2, -invSqrt2]]
  }

  /** The vector `a·1 - e_i` of length `m`: a row, and a column, of the Grover coin. */
  function DiffusionVector(a: real, m: nat, i: nat): (v: seq<real>)
    ensures |v| == m
  {
    seq(m, k => a - Delta(i, k))
  }

  /** `n * q` computed by repeated addition, which keeps the inductions below linear. */
  function Times(n: nat, q: real): real {
    if n == 0 then 0.0 else Times(n - 1, q) + q
  }

  lemma {:induction false} TimesIsProduct(n: nat, q: real)
    ensures Times(n, q) == n as real * q
  {
    if n > 0 {
      TimesIsProduct(n - 1, q);
      assert (n - 1) as real * q + q == n as real * q;
    }
  }

  lemma {:induction false} DiffusionVectorSum(a: real, m: nat, i: nat, n: nat)
    requires n <= m
    ensures SumTo(DiffusionVector(a, m, i), n) == Times(n, a) - (if i < n then 1.0 else 0.0)
  {
    if n > 0 {
      DiffusionVectorSum(a, m, i, n - 1);
    }
  }

  /** What the coordinates below `n` take away from `n a^2` in the inner
      product of two diffusion vectors. */
  function Correction(a: real, i: nat, j: nat, n: nat): real {
    (if i < n then a else 0.0) + (if j < n then a else 0.0) - (if i == j && i < n then 1.0 else 0.0)
  }

  lemma {:induction false} DiffusionVectorDot(a: real, m: nat, i: nat, j: nat, n: nat)
    requires n <= m
    ensures DotTo(DiffusionVector(a, m, i), DiffusionVector(a, m, j), n) == Times(n, a * a) - Correction(a, i, j, n)
  {
    if n > 0 {
      DiffusionVectorDot(a, m, i, j, n - 1);
      DiffusionProductAt(a, m, i, j, n);
    }
  }

  /** The product of coordinate `n - 1` of two diffusion vectors. */
  lemma DiffusionProductAt(a: real, m: nat, i: nat, j: nat, n: nat)
    requires 0 < n <= m
    ensures DiffusionVector(a, m, i)[n - 1] * DiffusionVector(a, m, j)[n - 1]
         == a * a - (Correction(a, i, j, n) - Correction(a, i, j, n - 1))
  {
    var x, y := Delta(i, n - 1), Delta(j, n - 1);
    assert (a - x) * (a - y) == a * a - a * x - a * y + x * y;
  }

  lemma GroverRows(k: nat)
    ensures forall i :: 0 <= i < Pow2(k) ==> GroverCoin(k)[i] == DiffusionVector(2.0 / Pow2(k) as real, Pow2(k), i)
    ensures forall j :: 0 <= j < Pow2(k) ==> Column(GroverCoin(k), j) == DiffusionVector(2.0 / Pow2(k) as real, Pow2(k), j)
  {
  }

  /** Each diagonal entry is `2/dim - 1`, each off-diagonal entry `2/dim`, and the coin is symmetric. */
  lemma GroverEntries(k: nat)
    ensures forall i, j :: 0 <= i < Pow2(k) && 0 <= j < Pow2(k) ==>
      GroverCoin(k)[i][j] == (if i == j then 2.0 / Pow2(k) as real - 1.0 else 2.0 / Pow2(k) as real)
    ensures Symmetric(GroverCoin(k))
  {
  }

  /** Every row of the Grover coin sums to 1. */
  lemma GroverRowSum(k: nat, i: nat)
    requires i < Pow2(k)
    ensures Sum(GroverCoin(k)[i]) == 1.0
  {
    var d := Pow2(k);
    var a := 2.0 / d as real;
    GroverRows(k);
    DiffusionVectorSum(a, d, i, d);
    TimesIsProduct(d, a);
  }

  /** Over exact reals the Grover coin squares to the identity. */
  lemma GroverInvolution(k: nat)
    ensures MatMul(GroverCoin(k), GroverCoin(k), Pow2(k), Pow2(k), Pow2(k)) == Identity(Pow2(k))
  {
    var d := Pow2(k);
    var a := 2.0 / d as real;
    var c := GroverCoin(k);
    var p := MatMul(c, c, d, d, d);
    GroverRows(k);
    TimesIsProduct(d, a * a);
    assert d as real * a == 2.0;
    assert Times(d, a * a) == 2.0 * a by {
      assert d as real * (a * a) == (d as real * a) * a;
    }
    forall i | 0 <= i < d ensures p[i] == Identity(d)[i] {
      forall j | 0 <= j < d ensures p[i][j] == Delta(i, j) {
        DiffusionVectorDot(a, d, i, j, d);
      }
    }
  }

  /** The transpose of the Grover coin is its inverse, as `qc.unitary` demands. */
  lemma GroverOrthogonal(k: nat)
    ensures IsOrthogonal(GroverCoin(k), Pow2(k))
  {
    var d := Pow2(k);
    var c := GroverCoin(k);
    GroverEntries(k);
    assert Transpose(c, d, d) == c by {
      forall j | 0 <= j < d ensures Transpose(c, d, d)[j] == c[j] {
        assert Column(c, j) == c[j];
      }
    }
    GroverInvolution(k);
  }

  /** On one coin qubit the Grover coin is the NOT matrix. */
  lemma GroverOneQubit()
    ensures GroverCoin(1) == [[0.0, 1.0], [1.0, 0.0]]
  {
    var c := GroverCoin(1);
    assert Pow2(1) == 2;
    assert c[0] == [0.0, 1.0];
    assert c[1] == [1.0, 0.0];
  }

  /** The Hadamard coin is symmetric, and squares to the identity when
      `invSqrt2` really is `1 / sqrt 2`. */
  lemma HadamardInvolution(invSqrt2: real)
    requires invSqrt2 * invSqrt2 == 0.5
    ensures Symmetric(HadamardCoin(invSqrt2))
    ensures MatMul(HadamardCoin(invSqrt2), HadamardCoin(invSqrt2), 2, 2, 2) == Identity(2)
  {
    var h := HadamardCoin(invSqrt2);
    var p := MatMul(h, h, 2, 2, 2);
    forall i | 0 <= i < 2 ensures p[i] == Identity(2)[i] {
      forall j | 0 <= j < 2 ensures p[i][j] == Delta(i, j) {
        assert Column(h, j) == h[j];
        DotPair(h[i], h[j]);
      }
    }
  }
}
