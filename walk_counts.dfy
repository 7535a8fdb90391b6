/** Turning the measured counts of a coined walk into a position
    distribution (the aggregation loop of run_coined_walk in
    src/coined_walk.py). */
module WalkCounts {
  import opened Wrappers
  import opened Matrices
  import opened Bits
  import opened Circuits
  import opened CoinedWalk

  /** Every character is a binary digit. */
  predicate IsBinary(b: string) {
    forall i :: 0 <= i < |b| ==> b[i] == '0' || b[i] == '1'
  }

  /** The number a binary string spells, most significant digit first. */
  function BinValue(b: string): nat
    requires IsBinary(b)
  {
    if b == [] then 0 else 2 * BinValue(b[..|b| - 1]) + (if b[|b| - 1] == '1' then 1 else 0)
  }

  /** `int(b, 2)` on a measurement key: the empty string and any other
      character than `0` and `1` raise `ValueError`. */
  function ParseBinary(b: string): Option<nat> {
    if |b| > 0 && IsBinary(b) then Some(BinValue(b)) else None
  }

  /** The key the simulator reports for a register: classical bit `n - 1`
      is written first, bit 0 last. */
  function CountsKey(bits: seq<bool>): (key: string)
    ensures |key| == |bits|
  {
    seq(|bits|, i requires 0 <= i < |bits| => if bits[|bits| - 1 - i] then '1' else '0')
  }

  /** The `width`-digit binary string of `v`, most significant digit first. */
  function ToBinary(v: nat, width: nat): (b: string)
    ensures |b| == width && IsBinary(b)
  {
    if width == 0 then [] else ToBinary(v / 2, width - 1) + [if v % 2 == 1 then '1' else '0']
  }

  lemma {:induction false} BinValueBound(b: string)
    requires IsBinary(b)
    ensures BinValue(b) < Pow2(|b|)
  {
    if b != [] {
      BinValueBound(b[..|b| - 1]);
    }
  }

  /** A parsed key of length `k` indexes one of the `2^k` positions. */
  lemma ParseBinaryBound(b: string)
    ensures ParseBinary(b).Some? ==> ParseBinary(b).value < Pow2(|b|)
  {
    if ParseBinary(b).Some? {
      BinValueBound(b);
    }
  }

  /** Rendering a number in binary and parsing it back gives the number. */
  lemma {:induction false} ToBinaryRoundTrip(v: nat, width: nat)
    requires v < Pow2(width)
    ensures BinValue(ToBinary(v, width)) == v
    ensures width > 0 ==> ParseBinary(ToBinary(v, width)) == Some(v)
  {
    if width > 0 {
      var b := ToBinary(v, width);
      ToBinaryRoundTrip(v / 2, width - 1);
      assert b[..|b| - 1] == ToBinary(v / 2, width - 1);
    }
  }

  /** Parsing a binary string and rendering it at its own width gives the
      string back, so keys of one length parse to distinct indices. */
  lemma {:induction false} BinValueRoundTrip(b: string)
    requires IsBinary(b)
    ensures ToBinary(BinValue(b), |b|) == b
  {
    if b != [] {
      var init := b[..|b| - 1];
      BinValueRoundTrip(init);
      var v := BinValue(b);
      assert v / 2 == BinValue(init);
      assert b == init + [b[|b| - 1]];
    }
  }

  lemma ParseBinaryInjective(b: string, c: string)
    requires |b| == |c| && ParseBinary(b).Some? && ParseBinary(b) == ParseBinary(c)
    ensures b == c
  {
    BinValueRoundTrip(b);
    BinValueRoundTrip(c);
  }

  /** The key of a measured register parses to the register's little-endian
      value: the index into the distribution is the walker's position. */
  lemma {:induction false} CountsKeyValue(bits: seq<bool>)
    ensures IsBinary(CountsKey(bits))
    ensures BinValue(CountsKey(bits)) == Value(bits)
    ensures |bits| > 0 ==> ParseBinary(CountsKey(bits)) == Some(Value(bits))
  {
    var key := CountsKey(bits);
    if bits != [] {
      var rest := bits[1..];
      CountsKeyValue(rest);
      assert key[..|key| - 1] == CountsKey(rest);
      assert key[|key| - 1] == (if bits[0] then '1' else '0');
    }
  }

  // ---------------------------------------------------------------------
  // The aggregation loop

  /** Why `probabilities[int(bitstring, 2)] = count / shots` raises, in the
      order Python evaluates it: the parse, then the division, then the store. */
  datatype CountsError = NotBinary(key: string) | ZeroShots | IndexOutOfRange(index: nat)

  /** The distribution after the items of `counts`, in the dictionary's order;
      a later key for the same index overwrites an earlier one. */
  function Aggregate(counts: seq<(string, nat)>, nPositions: nat, shots: nat): (r: Result<seq<real>, CountsError>)
    ensures r.Success? ==> |r.value| == nPositions
  {
    if counts == [] then Success(seq(nPositions, _ => 0.0))
    else
      match Aggregate(counts[..|counts| - 1], nPositions, shots)
      case Failure(e) => Failure(e)
      case Success(p) =>
        var (key, count) := counts[|counts| - 1];
        match ParseBinary(key)
        case None => Failure(NotBinary(key))
        case Some(idx) =>
          if shots == 0 then Failure(ZeroShots)
          else if idx >= nPositions then Failure(IndexOutOfRange(idx))
          else Success(p[idx := count as real / shots as real])
  }

  method AggregateCounts(counts: seq<(string, nat)>, nPositions: nat, shots: nat) returns (r: Result<seq<real>, CountsError>)
    ensures r == Aggregate(counts, nPositions, shots)
  {
    var probabilities := new real[nPositions](_ => 0.0);
    assert counts[..0] == [];
    assert probabilities[..] == seq(nPositions, _ => 0.0);
    for k := 0 to |counts|
      invariant Aggregate(counts[..k], nPositions, shots) == Success(probabilities[..])
    {
      assert counts[..k + 1][..k] == counts[..k];
      var (key, count) := counts[k];
      var parsed := ParseBinary(key);
      if parsed.None? {
        r := Failure(NotBinary(key));
        FailureSticks(counts, nPositions, shots, k + 1);
        return;
      }
      var idx := parsed.value;
      if shots == 0 {
        r := Failure(ZeroShots);
        FailureSticks(counts, nPositions, shots, k + 1);
        return;
      }
      if idx >= nPositions {
        r := Failure(IndexOutOfRange(idx));
        FailureSticks(counts, nPositions, shots, k + 1);
        return;
      }
      probabilities[idx] := count as real / shots as real;
    }
    assert counts[..|counts|] == counts;
    r := Success(probabilities[..]);
  }

  /** Once an item raises, the loop stops: the error of a prefix is the
      error of the whole dictionary. */
  lemma {:induction false} FailureSticks(counts: seq<(string, nat)>, nPositions: nat, shots: nat, k: nat)
    requires k <= |counts| && Aggregate(counts[..k], nPositions, shots).Failure?
    ensures Aggregate(counts, nPositions, shots) == Aggregate(counts[..k], nPositions, shots)
    decreases |counts| - k
  {
    if k < |counts| {
      var next := counts[..k + 1];
      assert next[..k] == counts[..k];
      FailureSticks(counts, nPositions, shots, k + 1);
    } else {
      assert counts[..k] == counts;
    }
  }

  /** Every key is binary, indexes a position, and no two keys name the
      same position. */
  predicate WellFormedCounts(counts: seq<(string, nat)>, nPositions: nat) {
    && (forall k :: 0 <= k < |counts| ==> ParseBinary(counts[k].0).Some? && ParseBinary(counts[k].0).value < nPositions)
    && (forall k, l :: 0 <= k < l < |counts| ==> ParseBinary(counts[k].0) != ParseBinary(counts[l].0))
  }

  /** Distinct binary keys of one length `k >= 1`, as a counts dictionary
      holds, index distinct positions below `2^k`: the store never
      overwrites an earlier entry. */
  lemma DistinctKeysWellFormed(counts: seq<(string, nat)>, k: nat)
    requires k >= 1
    requires forall i :: 0 <= i < |counts| ==> IsBinary(counts[i].0) && |counts[i].0| == k
    requires forall i, j :: 0 <= i < j < |counts| ==> counts[i].0 != counts[j].0
    ensures WellFormedCounts(counts, Pow2(k))
  {
    forall i | 0 <= i < |counts|
      ensures ParseBinary(counts[i].0).Some? && ParseBinary(counts[i].0).value < Pow2(k)
    {
      ParseBinaryBound(counts[i].0);
    }
    forall i, j | 0 <= i < j < |counts| ensures ParseBinary(counts[i].0) != ParseBinary(counts[j].0) {
      if ParseBinary(counts[i].0) == ParseBinary(counts[j].0) {
        ParseBinaryInjective(counts[i].0, counts[j].0);
      }
    }
  }

  /** The aggregation succeeds exactly when every key is binary and in
      range, and the shot count is positive or there is nothing to divide. */
  lemma {:induction false} AggregateSucceedsIff(counts: seq<(string, nat)>, nPositions: nat, shots: nat)
    ensures Aggregate(counts, nPositions, shots).Success?
        <==> (counts == [] || shots > 0)
             && forall k :: 0 <= k < |counts| ==> ParseBinary(counts[k].0).Some? && ParseBinary(counts[k].0).value < nPositions
  {
    if counts != [] {
      var init := counts[..|counts| - 1];
      AggregateSucceedsIff(init, nPositions, shots);
      forall k | 0 <= k < |init| ensures init[k] == counts[k] { }
    }
  }

  /** With zero shots the first binary key raises `ZeroDivisionError`. */
  lemma ZeroShotsRaises(counts: seq<(string, nat)>, nPositions: nat)
    requires |counts| > 0 && ParseBinary(counts[0].0).Some?
    ensures Aggregate(counts, nPositions, 0) == Failure(ZeroShots)
  {
    var first := counts[..1];
    assert first[..0] == [];
    FailureSticks(counts, nPositions, 0, 1);
  }

  /** Each measured position gets `count / shots`; every other position stays 0. */
  lemma {:induction false} AggregateEntries(counts: seq<(string, nat)>, nPositions: nat, shots: nat)
    requires shots > 0 && WellFormedCounts(counts, nPositions)
    ensures Aggregate(counts, nPositions, shots).Success?
    ensures forall k :: 0 <= k < |counts| ==>
      Aggregate(counts, nPositions, shots).value[ParseBinary(counts[k].0).value] == counts[k].1 as real / shots as real
    ensures forall i :: 0 <= i < nPositions && (forall k :: 0 <= k < |counts| ==> ParseBinary(counts[k].0) != Some(i)) ==>
      Aggregate(counts, nPositions, shots).value[i] == 0.0
  {
    if counts != [] {
      var init := counts[..|counts| - 1];
      assert WellFormedCounts(init, nPositions) by {
        forall k | 0 <= k < |init| ensures init[k] == counts[k] { }
      }
      AggregateEntries(init, nPositions, shots);
      var p := Aggregate(init, nPositions, shots).value;
      var last := |counts| - 1;
      var idx := ParseBinary(counts[last].0).value;
      var q := Aggregate(counts, nPositions, shots).value;
      assert q == p[idx := counts[last].1 as real / shots as real];
      forall k | 0 <= k < |counts|
        ensures q[ParseBinary(counts[k].0).value] == counts[k].1 as real / shots as real
      {
        if k < last {
          assert init[k] == counts[k];
          assert ParseBinary(counts[k].0) != ParseBinary(counts[last].0);
        }
      }
      forall i | 0 <= i < nPositions && (forall k :: 0 <= k < |counts| ==> ParseBinary(counts[k].0) != Some(i))
        ensures q[i] == 0.0
      {
        forall k | 0 <= k < |init| ensures ParseBinary(init[k].0) != Some(i) {
          assert init[k] == counts[k];
        }
      }
    }
  }

  /** Total of the counts. */
  function CountTotal(counts: seq<(string, nat)>): nat {
    if counts == [] then 0 else CountTotal(counts[..|counts| - 1]) + counts[|counts| - 1].1
  }

  lemma {:induction false} SumToUpdate(v: seq<real>, i: nat, x: real, n: nat)
    requires i < |v| && n <= |v|
    ensures SumTo(v[i := x], n) == SumTo(v, n) + (if i < n then x - v[i] else 0.0)
  {
    if n > 0 {
      SumToUpdate(v, i, x, n - 1);
    }
  }

  lemma DivAdd(a: real, b: real, s: real)
    requires s != 0.0
    ensures a / s + b / s == (a + b) / s
  {
  }

  /** The distribution adds up to the number of recorded shots over `shots`. */
  lemma {:induction false} AggregateSum(counts: seq<(string, nat)>, nPositions: nat, shots: nat)
    requires shots > 0 && WellFormedCounts(counts, nPositions)
    ensures Aggregate(counts, nPositions, shots).Success?
    ensures Sum(Aggregate(counts, nPositions, shots).value) == CountTotal(counts) as real / shots as real
  {
    if counts == [] {
      ZerosSum(nPositions, nPositions);
    } else {
      var init := counts[..|counts| - 1];
      var last := |counts| - 1;
      LastLandsOnZero(counts, nPositions, shots);
      AggregateSum(init, nPositions, shots);
      var p := Aggregate(init, nPositions, shots).value;
      var idx := ParseBinary(counts[last].0).value;
      AggregateSumStep(p, idx, CountTotal(init), counts[last].1, shots);
    }
  }

  /** When the counts account for every shot the result is a probability
      distribution: it sums to 1. */
  lemma AggregateIsDistribution(counts: seq<(string, nat)>, nPositions: nat, shots: nat)
    requires shots > 0 && WellFormedCounts(counts, nPositions) && CountTotal(counts) == shots
    ensures Aggregate(counts, nPositions, shots).Success?
    ensures Sum(Aggregate(counts, nPositions, shots).value) == 1.0
  {
    AggregateSum(counts, nPositions, shots);
    var t := shots as real;
    assert CountTotal(counts) as real == t;
    assert t / t == 1.0;
  }

  /** The last item of well-formed counts is stored into an entry the
      earlier items left at 0. */
  lemma LastLandsOnZero(counts: seq<(string, nat)>, nPositions: nat, shots: nat)
    requires shots > 0 && WellFormedCounts(counts, nPositions) && counts != []
    ensures WellFormedCounts(counts[..|counts| - 1], nPositions)
    ensures var p := Aggregate(counts[..|counts| - 1], nPositions, shots);
      var idx := ParseBinary(counts[|counts| - 1].0).value;
      && p.Success? && idx < |p.value| && p.value[idx] == 0.0
      && Aggregate(counts, nPositions, shots) == Success(p.value[idx := counts[|counts| - 1].1 as real / shots as real])
  {
    var init := counts[..|counts| - 1];
    var last := |counts| - 1;
    assert WellFormedCounts(init, nPositions) by {
      forall k | 0 <= k < |init| ensures init[k] == counts[k] { }
    }
    AggregateEntries(init, nPositions, shots);
    var idx := ParseBinary(counts[last].0).value;
    forall k | 0 <= k < |init| ensures ParseBinary(init[k].0) != Some(idx) {
      assert init[k] == counts[k];
    }
  }

  /** Storing `count / shots` into a zero entry adds it to the total. */
  lemma AggregateSumStep(p: seq<real>, idx: nat, total: nat, count: nat, shots: nat)
    requires shots > 0 && idx < |p| && p[idx] == 0.0
    requires Sum(p) == total as real / shots as real
    ensures Sum(p[idx := count as real / shots as real]) == (total + count) as real / shots as real
  {
    SumToUpdate(p, idx, count as real / shots as real, |p|);
    DivAdd(total as real, count as real, shots as real);
  }

  lemma {:induction false} ZerosSum(nPositions: nat, n: nat)
    requires n <= nPositions
    ensures SumTo(seq(nPositions, _ => 0.0), n) == 0.0
  {
    if n > 0 {
      ZerosSum(nPositions, n - 1);
    }
  }

  // ---------------------------------------------------------------------
  // run_coined_walk

  /** What `run_coined_walk` returns: the position labels, the distribution
      and the circuit. */
  datatype WalkResult = WalkResult(positions: seq<nat>, probabilities: seq<real>, circuit: QuantumCircuit)

  /** Builds the walk circuit and aggregates `counts`, the dictionary the
      simulator returned for it. */
  method RunCoinedWalk(nPos: nat, nSteps: nat, coinType: string := "grover", shots: nat := 8192, counts: seq<(string, nat)>)
    returns (r: Result<WalkResult, CountsError>)
    requires nSteps == 0 || nPos >= 1
    ensures r.Success? <==> Aggregate(counts, Pow2(nPos), shots).Success?
    ensures r.Failure? ==> r.error == Aggregate(counts, Pow2(nPos), shots).error
    ensures r.Success? ==>
      && r.value.positions == Range(0, Pow2(nPos))
      && r.value.probabilities == Aggregate(counts, Pow2(nPos), shots).value
      && r.value.circuit.Valid()
      && r.value.circuit.gates == WalkGates(nPos, nSteps, coinType)
  {
    var qc := BuildCoinedWalkCircuit(nPos, nSteps, coinType);
    var nPositions := Pow2(nPos);
    var probabilities := AggregateCounts(counts, nPositions, shots);
    match probabilities
    case Failure(e) =>
      r := Failure(e);
    case Success(p) =>
      r := Success(WalkResult(Range(0, nPositions), p, qc));
  }
}
