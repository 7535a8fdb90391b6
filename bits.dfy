/** Powers of two and little-endian bit strings: the position register read
    with its first qubit as the least significant bit. */
module Bits {

  function Pow2(k: nat): (r: nat)
    ensures r >= 1
  {
    if k == 0 then 1 else 2 * Pow2(k - 1)
  }

  /** The number a little-endian bit sequence encodes (bits[0] is the least significant). */
  function Value(bits: seq<bool>): nat {
    if bits == [] then 0 else (if bits[0] then 1 else 0) + 2 * Value(bits[1..])
  }

  lemma {:induction false} ValueBound(bits: seq<bool>)
    ensures Value(bits) < Pow2(|bits|)
  {
    if bits != [] {
      ValueBound(bits[1..]);
    }
  }

  /** True when the bits below index `j` are all zero. */
  predicate LowZero(bits: seq<bool>, j: nat)
    requires j <= |bits|
  {
    forall l :: 0 <= l < j ==> !bits[l]
  }

  /** Reference definition of "subtract one, wrapping around" on a
      little-endian bit string: flip the lowest bit and borrow while it was 0. */
  function DecBits(bits: seq<bool>): (r: seq<bool>)
    ensures |r| == |bits|
  {
    if bits == [] then []
    else if bits[0] then [false] + bits[1..]
    else [true] + DecBits(bits[1..])
  }

  /** Reference definition of "add one, wrapping around". */
  function IncBits(bits: seq<bool>): (r: seq<bool>)
    ensures |r| == |bits|
  {
    if bits == [] then []
    else if !bits[0] then [true] + bits[1..]
    else [false] + IncBits(bits[1..])
  }

  /** Decrement is subtraction of one modulo 2^k. */
  lemma {:induction false} DecBitsValue(bits: seq<bool>)
    ensures Value(DecBits(bits)) == (Value(bits) - 1) % Pow2(|bits|)
  {
    if bits != [] {
      var rest := bits[1..];
      var p := Pow2(|rest|);
      assert Pow2(|bits|) == 2 * p;
      assert DecBits(bits)[1..] == (if bits[0] then rest else DecBits(rest));
      ValueBound(rest);
      if bits[0] {
        assert Value(DecBits(bits)) == 2 * Value(rest) == Value(bits) - 1;
        ModOfInRange(Value(bits) - 1, 2 * p);
      } else {
        DecBitsValue(rest);
        if Value(rest) == 0 {
          ModOfInRange(p - 1, p);
          ModOfMinusOne(p);
          ModOfMinusOne(2 * p);
          assert Value(DecBits(rest)) == p - 1;
          assert Value(DecBits(bits)) == 2 * p - 1;
        } else {
          ModOfInRange(Value(rest) - 1, p);
          ModOfInRange(Value(bits) - 1, 2 * p);
          assert Value(DecBits(rest)) == Value(rest) - 1;
        }
      }
    }
  }

  lemma ModOfInRange(x: int, m: int)
    requires 0 <= x < m
    ensures x % m == x
  {
  }

  lemma ModOfMinusOne(m: int)
    requires m > 0
    ensures (-1) % m == m - 1
  {
  }

  /** Increment undoes decrement, so decrement is a bijection on bit strings of one length. */
  lemma {:induction false} IncDecInverse(bits: seq<bool>)
    ensures IncBits(DecBits(bits)) == bits
    ensures DecBits(IncBits(bits)) == bits
  {
    if bits != [] {
      IncDecInverse(bits[1..]);
      assert ([false] + bits[1..])[1..] == bits[1..];
      assert ([true] + bits[1..])[1..] == bits[1..];
      assert ([true] + DecBits(bits[1..]))[1..] == DecBits(bits[1..]);
      assert ([false] + IncBits(bits[1..]))[1..] == IncBits(bits[1..]);
    }
  }

  /** Bit `j` of the decrement flips exactly when every lower bit was 0. */
  lemma {:induction false} DecBitsAt(bits: seq<bool>, j: nat)
    requires j < |bits|
    ensures DecBits(bits)[j] == (bits[j] != LowZero(bits, j))
  {
    if j > 0 {
      var rest := bits[1..];
      if bits[0] {
        assert !LowZero(bits, j);
      } else {
        DecBitsAt(rest, j - 1);
        assert LowZero(bits, j) == LowZero(rest, j - 1) by {
          if LowZero(rest, j - 1) {
            forall l | 0 <= l < j ensures !bits[l] {
              if l > 0 { assert bits[l] == rest[l - 1]; }
            }
          }
        }
      }
    }
  }
}
