/** The discrete-time coined walk circuit (build_coined_walk_circuit in
    src/coined_walk.py): register layout, the gate list the builder appends,
    and what the shift chain does to basis states. */
module CoinedWalk {
  import opened Matrices
  import opened Bits
  import opened Coins
  import opened Circuits

  /** `coin_type == 'hadamard'` gives one coin qubit; any other string gives
      as many coin qubits as position qubits. */
  function NumCoinQubits(coinType: string, nPos: nat): nat {
    if coinType == "hadamard" then 1 else nPos
  }

  /** `list(range(lo, hi))`. */
  function Range(lo: nat, hi: nat): (r: seq<nat>)
    requires lo <= hi
    ensures |r| == hi - lo
    ensures forall i :: 0 <= i < |r| ==> r[i] == lo + i
  {
    seq(hi - lo, i requires 0 <= i < hi - lo => lo + i)
  }

  function DigitChar(d: nat): char
    requires d < 10
  {
    "0123456789"[d]
  }

  /** Decimal rendering of a step number, for the coin gate's label `C{step}`. */
  function Decimal(n: nat): string
    decreases n
  {
    if n < 10 then [DigitChar(n)] else Decimal(n / 10) + [DigitChar(n % 10)]
  }

  /** The initial Hadamard gate on every coin qubit. */
  function InitGates(coinQubits: seq<nat>): (gs: seq<Gate>)
    ensures |gs| == |coinQubits|
  {
    seq(|coinQubits|, i requires 0 <= i < |coinQubits| => HGate(coinQubits[i]))
  }

  /** The coin operator of one step: `h` on the single coin qubit of a
      Hadamard walk, otherwise the Grover coin as a unitary on all coin qubits. */
  function CoinGate(coinType: string, coinQubits: seq<nat>, step: nat): Gate {
    if coinType == "hadamard" && |coinQubits| == 1 then HGate(coinQubits[0])
    else UnitaryGate(GroverCoin(|coinQubits|), coinQubits, "C" + Decimal(step))
  }

  /** The shift chain: `cx(coin[0], pos[0])`, then for i >= 1
      `mcx(coin[:1] + pos[:i], pos[i])`. */
  function ShiftGates(coinQubits: seq<nat>, posQubits: seq<nat>): (gs: seq<Gate>)
    requires |coinQubits| >= 1 && |posQubits| >= 1
    ensures |gs| == |posQubits|
  {
    seq(|posQubits|, i requires 0 <= i < |posQubits| =>
      if i == 0 then CXGate(coinQubits[0], posQubits[0])
      else MCXGate(coinQubits[..1] + posQubits[..i], posQubits[i]))
  }

  function StepGates(coinType: string, coinQubits: seq<nat>, posQubits: seq<nat>, step: nat): (gs: seq<Gate>)
    requires |coinQubits| >= 1 && |posQubits| >= 1
    ensures |gs| == 1 + |posQubits|
  {
    [CoinGate(coinType, coinQubits, step)] + ShiftGates(coinQubits, posQubits)
  }

  /** The gates of steps `0 .. n - 1`, in order. */
  function StepsGates(coinType: string, coinQubits: seq<nat>, posQubits: seq<nat>, n: nat): seq<Gate>
    requires n == 0 || (|coinQubits| >= 1 && |posQubits| >= 1)
  {
    if n == 0 then []
    else StepsGates(coinType, coinQubits, posQubits, n - 1) + StepGates(coinType, coinQubits, posQubits, n - 1)
  }

  /** `measure(pos_qubits[i], i)` for every position qubit. */
  function MeasureGates(posQubits: seq<nat>): (gs: seq<Gate>)
    ensures |gs| == |posQubits|
  {
    seq(|posQubits|, i requires 0 <= i < |posQubits| => MeasureGate(posQubits[i], i))
  }

  /** The whole gate list of the walk circuit. Indexing `pos_qubits[0]`
      fails when there are steps but no position qubit, hence the requires. */
  function WalkGates(nPos: nat, nSteps: nat, coinType: string): seq<Gate>
    requires nSteps == 0 || nPos >= 1
  {
    var nCoin := NumCoinQubits(coinType, nPos);
    var nTotal := nPos + nCoin;
    var coinQubits, posQubits := Range(0, nCoin), Range(nCoin, nTotal);
    InitGates(coinQubits) + StepsGates(coinType, coinQubits, posQubits, nSteps) + MeasureGates(posQubits)
  }

  // ---------------------------------------------------------------------
  // The builder

  /** The controls of the shift gate on position qubit `i` are distinct,
      exist, and do not include its target. */
  lemma ShiftOperandsValid(nCoin: nat, nTotal: nat, i: nat)
    requires 1 <= nCoin && nCoin + i < nTotal
    ensures InRange(Range(0, nCoin)[..1] + Range(nCoin, nTotal)[..i] + [Range(nCoin, nTotal)[i]], nTotal)
    ensures Distinct(Range(0, nCoin)[..1] + Range(nCoin, nTotal)[..i] + [Range(nCoin, nTotal)[i]])
  {
    var qs := Range(0, nCoin)[..1] + Range(nCoin, nTotal)[..i] + [Range(nCoin, nTotal)[i]];
    assert qs == [0] + Range(nCoin, nCoin + i + 1);
  }

  /** Appends the coin gate and the shift chain of step `step`. */
  method AppendStep(qc: QuantumCircuit, coinType: string, nCoin: nat, nTotal: nat, step: nat)
    requires qc.Valid() && qc.numQubits == nTotal && 1 <= nCoin < nTotal
    modifies qc
    ensures qc.Valid()
    ensures qc.gates == old(qc.gates) + StepGates(coinType, Range(0, nCoin), Range(nCoin, nTotal), step)
  {
    AppendCoin(qc, coinType, nCoin, step);
    AppendShift(qc, nCoin, nTotal);
  }

  /** Appends the coin operator of step `step`. */
  method AppendCoin(qc: QuantumCircuit, coinType: string, nCoin: nat, step: nat)
    requires qc.Valid() && nCoin <= qc.numQubits
    modifies qc
    ensures qc.Valid()
    ensures qc.gates == old(qc.gates) + [CoinGate(coinType, Range(0, nCoin), step)]
  {
    var coinQubits := Range(0, nCoin);
    if coinType == "hadamard" && nCoin == 1 {
      qc.H(coinQubits[0]);
    } else {
      GroverOrthogonal(nCoin);
      qc.Unitary(GroverCoin(nCoin), coinQubits, "C" + Decimal(step));
    }
  }

  /** Appends the shift chain `cx(coin[0], pos[0])`, `mcx(coin[:1] + pos[:i], pos[i])`. */
  method AppendShift(qc: QuantumCircuit, nCoin: nat, nTotal: nat)
    requires qc.Valid() && qc.numQubits == nTotal && 1 <= nCoin < nTotal
    modifies qc
    ensures qc.Valid()
    ensures qc.gates == old(qc.gates) + ShiftGates(Range(0, nCoin), Range(nCoin, nTotal))
  {
    var coinQubits := Range(0, nCoin);
    var posQubits := Range(nCoin, nTotal);
    ghost var before := qc.gates;
    ghost var shift := ShiftGates(coinQubits, posQubits);
    qc.Cx(coinQubits[0], posQubits[0]);
    for i := 1 to |posQubits|
      invariant qc.Valid() && qc.numQubits == nTotal
      invariant qc.gates == before + shift[..i]
    {
      ShiftOperandsValid(nCoin, nTotal, i);
      qc.Mcx(coinQubits[..1] + posQubits[..i], posQubits[i]);
      assert shift[..i + 1] == shift[..i] + [shift[i]];
    }
    assert shift[..|posQubits|] == shift;
  }

  /** Appends `h` on each of the qubits `0 .. nCoin - 1`. */
  method AppendInit(qc: QuantumCircuit, nCoin: nat)
    requires qc.Valid() && nCoin <= qc.numQubits
    modifies qc
    ensures qc.Valid() && qc.gates == old(qc.gates) + InitGates(Range(0, nCoin))
  {
    var coinQubits := Range(0, nCoin);
    ghost var before := qc.gates;
    ghost var init := InitGates(coinQubits);
    for i := 0 to |coinQubits|
      invariant qc.Valid() && qc.gates == before + init[..i]
    {
      qc.H(coinQubits[i]);
      assert init[..i + 1] == init[..i] + [init[i]];
    }
    assert init[..|coinQubits|] == init;
  }

  /** Appends `measure(pos_qubits[i], i)` for each position qubit. */
  method AppendMeasures(qc: QuantumCircuit, nCoin: nat, nTotal: nat)
    requires qc.Valid() && nCoin <= nTotal && qc.numQubits == nTotal && qc.numClbits == nTotal - nCoin
    modifies qc
    ensures qc.Valid() && qc.gates == old(qc.gates) + MeasureGates(Range(nCoin, nTotal))
  {
    var posQubits := Range(nCoin, nTotal);
    ghost var before := qc.gates;
    ghost var measures := MeasureGates(posQubits);
    for i := 0 to |posQubits|
      invariant qc.Valid() && qc.gates == before + measures[..i]
    {
      qc.Measure(posQubits[i], i);
      assert measures[..i + 1] == measures[..i] + [measures[i]];
    }
    assert measures[..|posQubits|] == measures;
  }

  method BuildCoinedWalkCircuit(nPos: nat, nSteps: nat, coinType: string := "grover") returns (qc: QuantumCircuit)
    requires nSteps == 0 || nPos >= 1
    ensures fresh(qc) && qc.Valid()
    ensures qc.numQubits == nPos + NumCoinQubits(coinType, nPos) && qc.numClbits == nPos
    ensures qc.gates == WalkGates(nPos, nSteps, coinType)
  {
    var nCoin := if coinType == "hadamard" then 1 else nPos;
    var nTotal := nPos + nCoin;
    qc := new QuantumCircuit(nTotal, nPos);
    ghost var coinQubits := Range(0, nCoin);
    ghost var posQubits := Range(nCoin, nTotal);
    AppendInit(qc, nCoin);
    ghost var init := qc.gates;
    assert init == InitGates(coinQubits);
    for step := 0 to nSteps
      invariant qc.Valid() && qc.numQubits == nTotal && qc.numClbits == nPos
      invariant qc.gates == init + StepsGates(coinType, coinQubits, posQubits, step)
    {
      ghost var steps := StepsGates(coinType, coinQubits, posQubits, step);
      AppendStep(qc, coinType, nCoin, nTotal, step);
      AppendAssoc(init, steps, StepGates(coinType, coinQubits, posQubits, step));
    }
    ghost var body := qc.gates;
    AppendMeasures(qc, nCoin, nTotal);
    assert qc.gates == body + MeasureGates(posQubits);
  }

  lemma AppendAssoc(a: seq<Gate>, b: seq<Gate>, c: seq<Gate>)
    ensures (a + b) + c == a + (b + c)
  {
  }

  // ---------------------------------------------------------------------
  // Layout and shape of the circuit
  //
  // Several lemmas below take a value that is fixed by an equality in their
  // requires (`nCoin == NumCoinQubits(coinType, nPos)`, `len == 1 + |posQubits|`,
  // `at == nCoin + |StepsGates(..)|`) instead of computing it locally. The
  // caller then supplies the very term the conclusion mentions, so the
  // verifier matches offsets as written rather than re-deriving them by
  // arithmetic, which keeps these proofs small.

  /** Coin qubits come first, position qubits after them; together they are
      exactly the register, and the two groups do not overlap. */
  lemma RegisterLayout(coinType: string, nPos: nat)
    ensures var nCoin := NumCoinQubits(coinType, nPos);
      && (coinType == "hadamard" ==> nCoin == 1)
      && (coinType != "hadamard" ==> nCoin == nPos)
      && |Range(nCoin, nPos + nCoin)| == nPos
      && (forall q :: q in Range(0, nCoin) ==> q !in Range(nCoin, nPos + nCoin))
      && (forall q: nat :: q < nPos + nCoin <==> q in Range(0, nCoin) || q in Range(nCoin, nPos + nCoin))
  {
    var nCoin := NumCoinQubits(coinType, nPos);
    var coinQ, posQ := Range(0, nCoin), Range(nCoin, nPos + nCoin);
    forall q: nat | q < nPos + nCoin ensures q in coinQ || q in posQ {
      if q < nCoin { assert coinQ[q] == q; } else { assert posQ[q - nCoin] == q; }
    }
  }

  /** Steps `0 .. n - 1` take `1 + |posQubits|` gates each. */
  lemma {:induction false} StepsGatesLength(coinType: string, coinQubits: seq<nat>, posQubits: seq<nat>, n: nat)
    requires n == 0 || (|coinQubits| >= 1 && |posQubits| >= 1)
    ensures |StepsGates(coinType, coinQubits, posQubits, n)| == n * (1 + |posQubits|)
  {
    if n > 0 {
      StepsGatesLength(coinType, coinQubits, posQubits, n - 1);
      assert n * (1 + |posQubits|) == (n - 1) * (1 + |posQubits|) + (1 + |posQubits|);
    }
  }

  lemma PrefixOfConcat(a: seq<Gate>, b: seq<Gate>, k: nat)
    requires k <= |a|
    ensures (a + b)[..k] == a[..k]
  {
  }

  /** The gates of the first `m` steps open the gates of the first `n`. */
  lemma {:induction false} StepsGatesPrefix(coinType: string, coinQubits: seq<nat>, posQubits: seq<nat>, m: nat, n: nat)
    requires |coinQubits| >= 1 && |posQubits| >= 1 && m <= n
    ensures |StepsGates(coinType, coinQubits, posQubits, m)| <= |StepsGates(coinType, coinQubits, posQubits, n)|
    ensures StepsGates(coinType, coinQubits, posQubits, n)[..|StepsGates(coinType, coinQubits, posQubits, m)|]
         == StepsGates(coinType, coinQubits, posQubits, m)
  {
    var first := StepsGates(coinType, coinQubits, posQubits, m);
    if m == n {
      assert first[..|first|] == first;
    } else {
      StepsGatesPrefix(coinType, coinQubits, posQubits, m, n - 1);
      var prev := StepsGates(coinType, coinQubits, posQubits, n - 1);
      var last := StepGates(coinType, coinQubits, posQubits, n - 1);
      assert StepsGates(coinType, coinQubits, posQubits, n) == prev + last;
      PrefixOfConcat(prev, last, |first|);
    }
  }

  /** Step `s` occupies the `1 + |posQubits|` gates that follow the gates of
      steps `0 .. s - 1`. */
  lemma {:induction false} StepsGatesBlock(coinType: string, coinQubits: seq<nat>, posQubits: seq<nat>, n: nat, s: nat, len: nat)
    requires |coinQubits| >= 1 && |posQubits| >= 1 && s < n && len == 1 + |posQubits|
    ensures var at := |StepsGates(coinType, coinQubits, posQubits, s)|;
      at + len <= |StepsGates(coinType, coinQubits, posQubits, n)|
      && StepsGates(coinType, coinQubits, posQubits, n)[at..at + len]
         == StepGates(coinType, coinQubits, posQubits, s)
  {
    var prev := StepsGates(coinType, coinQubits, posQubits, n - 1);
    var last := StepGates(coinType, coinQubits, posQubits, n - 1);
    assert StepsGates(coinType, coinQubits, posQubits, n) == prev + last;
    if s == n - 1 {
      SliceOfLast(prev, last, len);
    } else {
      StepsGatesBlock(coinType, coinQubits, posQubits, n - 1, s, len);
      SliceOfPrefix(prev, last, |StepsGates(coinType, coinQubits, posQubits, s)|, len);
    }
  }

  lemma SliceOfLast(a: seq<Gate>, b: seq<Gate>, len: nat)
    requires |b| == len
    ensures |a| + len <= |a + b| && (a + b)[|a|..|a| + len] == b
  {
  }

  lemma SliceOfPrefix(a: seq<Gate>, b: seq<Gate>, at: nat, len: nat)
    requires at + len <= |a|
    ensures at + len <= |a + b| && (a + b)[at..at + len] == a[at..at + len]
  {
  }

  lemma MiddleSlice(w: seq<Gate>, a: seq<Gate>, b: seq<Gate>, c: seq<Gate>, piece: seq<Gate>, off: nat, lo: nat, len: nat)
    requires w == a + b + c && off == |a| && lo + len <= |b| && b[lo..lo + len] == piece
    ensures off + lo + len <= |w| && w[off + lo..off + lo + len] == piece
  {
    assert w[off + lo..off + lo + len] == b[lo..lo + len];
  }

  lemma SliceElement(a: seq<Gate>, b: seq<Gate>, lo: nat, len: nat, j: nat)
    requires lo + len <= |a| && a[lo..lo + len] == b && j < len
    ensures lo + j < |a| && a[lo + j] == b[j]
  {
    assert a[lo..lo + len][j] == a[lo + j];
  }

  lemma SliceTail(a: seq<Gate>, b: seq<Gate>, at: nat, len: nat)
    requires at + (1 + len) <= |a| && a[at..at + (1 + len)] == b
    ensures a[at + 1..at + 1 + len] == b[1..]
  {
    assert a[at + 1..at + 1 + len] == a[at..at + (1 + len)][1..];
  }

  /** A slice of the step block is the same slice of the circuit, shifted by
      the `nCoin` initial Hadamards. */
  lemma StepsInWalk(nPos: nat, nSteps: nat, coinType: string, nCoin: nat, lo: nat, len: nat, piece: seq<Gate>)
    requires nPos >= 1 && nCoin == NumCoinQubits(coinType, nPos)
    requires lo + len <= |StepsGates(coinType, Range(0, nCoin), Range(nCoin, nPos + nCoin), nSteps)|
    requires StepsGates(coinType, Range(0, nCoin), Range(nCoin, nPos + nCoin), nSteps)[lo..lo + len] == piece
    ensures nCoin + lo + len <= |WalkGates(nPos, nSteps, coinType)|
    ensures WalkGates(nPos, nSteps, coinType)[nCoin + lo..nCoin + lo + len] == piece
  {
    var coinQ, posQ := Range(0, nCoin), Range(nCoin, nPos + nCoin);
    MiddleSlice(WalkGates(nPos, nSteps, coinType), InitGates(coinQ), StepsGates(coinType, coinQ, posQ, nSteps),
      MeasureGates(posQ), piece, nCoin, lo, len);
  }

  /** In the circuit, step `s` follows the `nCoin` initial Hadamards and the
      gates of steps `0 .. s - 1`. */
  lemma WalkStepBlock(nPos: nat, nSteps: nat, coinType: string, s: nat, nCoin: nat)
    requires nPos >= 1 && s < nSteps && nCoin == NumCoinQubits(coinType, nPos)
    ensures nCoin + |StepsGates(coinType, Range(0, nCoin), Range(nCoin, nPos + nCoin), s)| + (1 + nPos)
         <= |WalkGates(nPos, nSteps, coinType)|
    ensures WalkGates(nPos, nSteps, coinType)[nCoin + |StepsGates(coinType, Range(0, nCoin), Range(nCoin, nPos + nCoin), s)|..
                                              nCoin + |StepsGates(coinType, Range(0, nCoin), Range(nCoin, nPos + nCoin), s)| + (1 + nPos)]
         == StepGates(coinType, Range(0, nCoin), Range(nCoin, nPos + nCoin), s)
  {
    var coinQ, posQ := Range(0, nCoin), Range(nCoin, nPos + nCoin);
    StepsGatesBlock(coinType, coinQ, posQ, nSteps, s, 1 + nPos);
    StepsInWalk(nPos, nSteps, coinType, nCoin, |StepsGates(coinType, coinQ, posQ, s)|, 1 + nPos,
      StepGates(coinType, coinQ, posQ, s));
  }

  /** Step `s` starts `s * (1 + nPos)` gates into the step block. */
  lemma WalkStepStart(coinType: string, nCoin: nat, nPos: nat, s: nat)
    requires nCoin >= 1 && nPos >= 1
    ensures |StepsGates(coinType, Range(0, nCoin), Range(nCoin, nPos + nCoin), s)| == s * (1 + nPos)
  {
    StepsGatesLength(coinType, Range(0, nCoin), Range(nCoin, nPos + nCoin), s);
  }

  /** The circuit holds one Hadamard per coin qubit, `1 + nPos` gates per
      step and one measurement per position qubit. */
  lemma WalkGateCount(nPos: nat, nSteps: nat, coinType: string)
    requires nSteps == 0 || nPos >= 1
    ensures |WalkGates(nPos, nSteps, coinType)| == NumCoinQubits(coinType, nPos) + nSteps * (1 + nPos) + nPos
  {
    var nCoin := NumCoinQubits(coinType, nPos);
    StepsGatesLength(coinType, Range(0, nCoin), Range(nCoin, nPos + nCoin), nSteps);
  }

  /** The circuit opens with a Hadamard on each coin qubit and ends with
      position qubit `i` measured into classical bit `i`. */
  lemma WalkEnds(nPos: nat, nSteps: nat, coinType: string)
    requires nSteps == 0 || nPos >= 1
    ensures var nCoin := NumCoinQubits(coinType, nPos);
      var g := WalkGates(nPos, nSteps, coinType);
      && |g| >= nCoin + nPos
      && (forall i :: 0 <= i < nCoin ==> g[i] == HGate(i))
      && g[|g| - nPos..] == MeasureGates(Range(nCoin, nPos + nCoin))
  {
    var nCoin := NumCoinQubits(coinType, nPos);
    var g := WalkGates(nPos, nSteps, coinType);
    var init := InitGates(Range(0, nCoin));
    var body := init + StepsGates(coinType, Range(0, nCoin), Range(nCoin, nPos + nCoin), nSteps);
    assert g == body + MeasureGates(Range(nCoin, nPos + nCoin));
    assert g[|g| - nPos..] == MeasureGates(Range(nCoin, nPos + nCoin));
    forall i | 0 <= i < nCoin ensures g[i] == HGate(i) {
      assert g[i] == body[i] == init[i];
    }
  }

  /** With zero steps nothing touches a position qubit before it is measured:
      every gate ahead of the measurements is a Hadamard on a coin qubit. */
  lemma ZeroStepsWalk(nPos: nat, coinType: string)
    ensures var nCoin := NumCoinQubits(coinType, nPos);
      var g := WalkGates(nPos, 0, coinType);
      && |g| == nCoin + nPos
      && (forall i :: 0 <= i < |g| - nPos ==> g[i].HGate? && g[i].qubit < nCoin)
  {
    WalkGateCount(nPos, 0, coinType);
    WalkEnds(nPos, 0, coinType);
  }

  /** Step `s` starts with its coin gate: `h` on qubit 0 for the Hadamard
      walk, otherwise the Grover coin on all coin qubits, labelled `C{s}`. */
  lemma WalkCoinGate(nPos: nat, nSteps: nat, coinType: string, s: nat, nCoin: nat)
    requires nPos >= 1 && s < nSteps && nCoin == NumCoinQubits(coinType, nPos)
    ensures nCoin + s * (1 + nPos) < |WalkGates(nPos, nSteps, coinType)|
    ensures WalkGates(nPos, nSteps, coinType)[nCoin + s * (1 + nPos)]
         == if coinType == "hadamard" then HGate(0)
            else UnitaryGate(GroverCoin(nPos), Range(0, nPos), "C" + Decimal(s))
  {
    var coinQ, posQ := Range(0, nCoin), Range(nCoin, nPos + nCoin);
    var walk := WalkGates(nPos, nSteps, coinType);
    var at := nCoin + |StepsGates(coinType, coinQ, posQ, s)|;
    WalkStepBlock(nPos, nSteps, coinType, s, nCoin);
    WalkStepStart(coinType, nCoin, nPos, s);
    SliceElement(walk, StepGates(coinType, coinQ, posQ, s), at, 1 + nPos, 0);
  }

  /** Gate `j` of the shift chain of step `s` flips position qubit `j`
      under the control of coin qubit 0 and position qubits `0 .. j - 1`. */
  lemma WalkShiftGate(nPos: nat, nSteps: nat, coinType: string, s: nat, j: nat, nCoin: nat)
    requires s < nSteps && j < nPos && nCoin == NumCoinQubits(coinType, nPos)
    ensures nCoin + s * (1 + nPos) + 1 + j < |WalkGates(nPos, nSteps, coinType)|
    ensures WalkGates(nPos, nSteps, coinType)[nCoin + s * (1 + nPos) + 1 + j].IsXFamily()
    ensures WalkGates(nPos, nSteps, coinType)[nCoin + s * (1 + nPos) + 1 + j].target == nCoin + j
    ensures WalkGates(nPos, nSteps, coinType)[nCoin + s * (1 + nPos) + 1 + j].ControlQubits()
         == [0] + Range(nCoin, nCoin + j)
  {
    var start := nCoin + s * (1 + nPos);
    var walk := WalkGates(nPos, nSteps, coinType);
    WalkShiftBlock(nPos, nSteps, coinType, s, nCoin);
    SliceElement(walk, Shift(nCoin, nPos), start + 1, nPos, j);
    ShiftGateAt(nCoin, nPos, j);
  }

  // ---------------------------------------------------------------------
  // What the shift chain does to basis states

  /** The shift chain on `nCoin` coin qubits followed by `k` position qubits. */
  function Shift(nCoin: nat, k: nat): (gs: seq<Gate>)
    requires nCoin >= 1 && k >= 1
    ensures |gs| == k
  {
    ShiftGates(Range(0, nCoin), Range(nCoin, nCoin + k))
  }

  /** Gate `i` of a shift chain: an X-family gate on position qubit `i`
      whose controls are coin qubit 0 and then position qubits `0 .. i - 1`. */
  predicate ShiftGateShape(g: Gate, nCoin: nat, i: nat) {
    && g.IsXFamily()
    && g.target == nCoin + i
    && |g.ControlQubits()| == i + 1
    && g.ControlQubits()[0] == 0
    && forall c :: 1 <= c <= i ==> g.ControlQubits()[c] == nCoin + c - 1
  }

  predicate IsShiftChain(gs: seq<Gate>, nCoin: nat, k: nat) {
    |gs| == k && forall i :: 0 <= i < k ==> ShiftGateShape(gs[i], nCoin, i)
  }

  /** Shift gate `i` is an X-family gate on position qubit `i` controlled by
      coin qubit 0 and the position qubits below `i`. */
  lemma ShiftGateAt(nCoin: nat, k: nat, i: nat)
    requires nCoin >= 1 && i < k
    ensures Shift(nCoin, k)[i].IsXFamily()
    ensures Shift(nCoin, k)[i].target == nCoin + i
    ensures Shift(nCoin, k)[i].ControlQubits() == [0] + Range(nCoin, nCoin + i)
    ensures ShiftGateShape(Shift(nCoin, k)[i], nCoin, i)
  {
    var coinQ, posQ := Range(0, nCoin), Range(nCoin, nCoin + k);
    assert coinQ[..1] == [0];
    assert posQ[..i] == Range(nCoin, nCoin + i);
  }

  lemma ShiftIsChain(nCoin: nat, k: nat)
    requires nCoin >= 1 && k >= 1
    ensures IsShiftChain(Shift(nCoin, k), nCoin, k)
  {
    forall i | 0 <= i < k ensures ShiftGateShape(Shift(nCoin, k)[i], nCoin, i) {
      ShiftGateAt(nCoin, k, i);
    }
  }

  /** A shift-chain gate on a position qubit that exists acts classically:
      its qubits exist and its target is not a control. */
  lemma ShapeClassical(g: Gate, nCoin: nat, i: nat, n: nat)
    requires nCoin >= 1 && nCoin + i < n && ShiftGateShape(g, nCoin, i)
    ensures ClassicalOn(g, n)
  {
    var cs := g.ControlQubits();
    forall c | 0 <= c < |cs| ensures cs[c] < n && cs[c] != g.target {
      if c > 0 {
        assert cs[c] == nCoin + c - 1;
      }
    }
  }

  lemma ChainClassical(gs: seq<Gate>, nCoin: nat, k: nat)
    requires nCoin >= 1 && IsShiftChain(gs, nCoin, k)
    ensures AllClassicalOn(gs, nCoin + k)
  {
    forall i | 0 <= i < k ensures ClassicalOn(gs[i], nCoin + k) {
      ShapeClassical(gs[i], nCoin, i, nCoin + k);
    }
  }

  /** Each gate of the shift chain targets a position qubit that is not one
      of its controls, and every qubit it names exists. */
  lemma ShiftClassical(nCoin: nat, k: nat)
    requires nCoin >= 1 && k >= 1
    ensures AllClassicalOn(Shift(nCoin, k), nCoin + k)
  {
    ShiftIsChain(nCoin, k);
    ChainClassical(Shift(nCoin, k), nCoin, k);
  }

  /** The position bits after the first `i` shift gates: when `on`, bit `j < i`
      has flipped exactly when every bit below it was 0. */
  function PartialDec(bits: seq<bool>, i: nat, on: bool): (r: seq<bool>)
    ensures |r| == |bits|
  {
    seq(|bits|, j requires 0 <= j < |bits| => if on && j < i then bits[j] != LowZero(bits, j) else bits[j])
  }

  /** The lower bits are all 1 after the partial decrement exactly when they
      were all 0 before it. */
  lemma {:induction false} PrefixFlippedIffLowZero(bits: seq<bool>, i: nat)
    requires i <= |bits|
    ensures (forall m :: 0 <= m < i ==> (bits[m] != LowZero(bits, m))) <==> LowZero(bits, i)
  {
    if i > 0 {
      PrefixFlippedIffLowZero(bits, i - 1);
      if LowZero(bits, i) {
        assert LowZero(bits, i - 1);
      }
    }
  }

  /** Gate `i - 1` of a shift chain fires, after the gates before it, exactly
      when coin qubit 0 is 1 and the position bits below `i - 1` were all 0. */
  lemma ShiftControlsSet(g: Gate, nCoin: nat, k: nat, s: seq<bool>, i: nat)
    requires nCoin >= 1 && |s| == nCoin + k && 0 < i <= k && ShiftGateShape(g, nCoin, i - 1)
    ensures ClassicalOn(g, |s|)
    ensures ControlsSet(g, s[..nCoin] + PartialDec(s[nCoin..], i - 1, s[0])) == (s[0] && LowZero(s[nCoin..], i - 1))
  {
    var j := i - 1;
    var bits := s[nCoin..];
    PrefixFlippedIffLowZero(bits, j);
    ControlsOfPartial(g, nCoin, k, s, j);
  }

  /** Shift gate `j` fires exactly when coin qubit 0 and the position qubits
      below position qubit `j` are all 1. */
  lemma ShapeControls(g: Gate, nCoin: nat, j: nat, st: seq<bool>)
    requires nCoin >= 1 && nCoin + j < |st| && ShiftGateShape(g, nCoin, j)
    ensures ClassicalOn(g, |st|)
    ensures ControlsSet(g, st) == (st[0] && forall q :: nCoin <= q < nCoin + j ==> st[q])
  {
    ShapeClassical(g, nCoin, j, |st|);
    var cs := g.ControlQubits();
    if ControlsSet(g, st) {
      assert st[cs[0]];
      forall q | nCoin <= q < nCoin + j ensures st[q] {
        assert cs[q - nCoin + 1] == q;
      }
    } else {
      var c :| 0 <= c < |cs| && !st[cs[c]];
      if c > 0 {
        assert cs[c] == nCoin + c - 1;
      }
    }
  }

  /** Qubit `q` of the partially decremented state, read on position bit `q - nCoin`. */
  lemma PartialAt(s: seq<bool>, nCoin: nat, j: nat, q: nat)
    requires nCoin <= q < |s| && q < nCoin + j && s[0]
    ensures (s[..nCoin] + PartialDec(s[nCoin..], j, s[0]))[q] == (s[nCoin..][q - nCoin] != LowZero(s[nCoin..], q - nCoin))
  {
    var pd := PartialDec(s[nCoin..], j, s[0]);
    assert (s[..nCoin] + pd)[q] == pd[q - nCoin];
  }

  /** Over the partially decremented state, gate `j` fires exactly when coin
      qubit 0 is 1 and each position bit below `j` has flipped. */
  lemma ControlsOfPartial(g: Gate, nCoin: nat, k: nat, s: seq<bool>, j: nat)
    requires nCoin >= 1 && |s| == nCoin + k && j < k && ShiftGateShape(g, nCoin, j)
    ensures ClassicalOn(g, |s|)
    ensures ControlsSet(g, s[..nCoin] + PartialDec(s[nCoin..], j, s[0]))
        == (s[0] && forall m :: 0 <= m < j ==> (s[nCoin..][m] != LowZero(s[nCoin..], m)))
  {
    var bits := s[nCoin..];
    var pd := PartialDec(bits, j, s[0]);
    var st := s[..nCoin] + pd;
    ShapeControls(g, nCoin, j, st);
    assert st[0] == s[0];
    if s[0] {
      forall q | nCoin <= q < nCoin + j ensures st[q] == (bits[q - nCoin] != LowZero(bits, q - nCoin)) {
        PartialAt(s, nCoin, j, q);
      }
      if forall q :: nCoin <= q < nCoin + j ==> st[q] {
        forall m | 0 <= m < j ensures bits[m] != LowZero(bits, m) {
          assert st[nCoin + m];
        }
      }
    }
  }

  /** Gate `i - 1` of a shift chain extends the partial decrement from
      `i - 1` bits to `i`. */
  lemma ShiftStep(g: Gate, nCoin: nat, k: nat, s: seq<bool>, i: nat)
    requires nCoin >= 1 && |s| == nCoin + k && 0 < i <= k && ShiftGateShape(g, nCoin, i - 1)
    ensures ClassicalOn(g, |s|)
    ensures ApplyX(g, s[..nCoin] + PartialDec(s[nCoin..], i - 1, s[0])) == s[..nCoin] + PartialDec(s[nCoin..], i, s[0])
  {
    var bits := s[nCoin..];
    var st := s[..nCoin] + PartialDec(bits, i - 1, s[0]);
    var expected := s[..nCoin] + PartialDec(bits, i, s[0]);
    ShiftControlsSet(g, nCoin, k, s, i);
    var r := ApplyX(g, st);
    forall q | 0 <= q < |s| ensures r[q] == expected[q] {
      if q >= nCoin {
        assert st[q] == PartialDec(bits, i - 1, s[0])[q - nCoin];
        assert expected[q] == PartialDec(bits, i, s[0])[q - nCoin];
      }
    }
  }

  /** After the first `i` gates of a shift chain the coin register is
      untouched and the position register holds the partial decrement, which
      is switched on by coin qubit 0. */
  lemma {:induction false} ShiftPrefix(gs: seq<Gate>, nCoin: nat, k: nat, s: seq<bool>, i: nat)
    requires nCoin >= 1 && |s| == nCoin + k && i <= k && IsShiftChain(gs, nCoin, k)
    ensures AllClassicalOn(gs[..i], |s|)
    ensures Run(gs[..i], s) == s[..nCoin] + PartialDec(s[nCoin..], i, s[0])
  {
    ChainClassical(gs, nCoin, k);
    AllClassicalOnPrefix(gs, i, |s|);
    if i == 0 {
      assert s[..nCoin] + PartialDec(s[nCoin..], 0, s[0]) == s;
    } else {
      ShiftPrefix(gs, nCoin, k, s, i - 1);
      assert gs[..i][..i - 1] == gs[..i - 1];
      assert gs[..i][i - 1] == gs[i - 1];
      ShiftStep(gs[i - 1], nCoin, k, s, i);
    }
  }

  /** The shift chain, read on basis states: coin qubit 0 equal to 1 moves the
      position `p` (position qubit 0 least significant) to `p - 1` modulo
      `2^k`; coin qubit 0 equal to 0 leaves it. The coin register is not
      changed. */
  lemma ShiftEffect(nCoin: nat, k: nat, s: seq<bool>)
    requires nCoin >= 1 && k >= 1 && |s| == nCoin + k
    ensures AllClassicalOn(Shift(nCoin, k), |s|)
    ensures Run(Shift(nCoin, k), s)[..nCoin] == s[..nCoin]
    ensures Run(Shift(nCoin, k), s)[nCoin..] == if s[0] then DecBits(s[nCoin..]) else s[nCoin..]
    ensures Value(Run(Shift(nCoin, k), s)[nCoin..])
         == if s[0] then (Value(s[nCoin..]) - 1) % Pow2(k) else Value(s[nCoin..])
  {
    var sh := Shift(nCoin, k);
    ShiftIsChain(nCoin, k);
    ChainEffect(sh, nCoin, k, s);
  }

  lemma ChainEffect(gs: seq<Gate>, nCoin: nat, k: nat, s: seq<bool>)
    requires nCoin >= 1 && |s| == nCoin + k && IsShiftChain(gs, nCoin, k)
    ensures AllClassicalOn(gs, |s|)
    ensures Run(gs, s)[..nCoin] == s[..nCoin]
    ensures Run(gs, s)[nCoin..] == if s[0] then DecBits(s[nCoin..]) else s[nCoin..]
    ensures Value(Run(gs, s)[nCoin..]) == if s[0] then (Value(s[nCoin..]) - 1) % Pow2(k) else Value(s[nCoin..])
  {
    var bits := s[nCoin..];
    ChainRun(gs, nCoin, k, s);
    ConcatParts(s[..nCoin], PartialDec(bits, k, s[0]));
    PartialDecComplete(bits);
    if s[0] {
      DecBitsValue(bits);
    }
  }

  /** The whole chain leaves the partial decrement with all `k` bits done. */
  lemma ChainRun(gs: seq<Gate>, nCoin: nat, k: nat, s: seq<bool>)
    requires nCoin >= 1 && |s| == nCoin + k && IsShiftChain(gs, nCoin, k)
    ensures AllClassicalOn(gs, |s|)
    ensures Run(gs, s) == s[..nCoin] + PartialDec(s[nCoin..], k, s[0])
  {
    ShiftPrefix(gs, nCoin, k, s, k);
    assert gs[..k] == gs;
  }

  lemma ConcatParts(a: seq<bool>, b: seq<bool>)
    ensures (a + b)[..|a|] == a && (a + b)[|a|..] == b
  {
  }

  /** With every gate applied, the partial decrement is the decrement when
      switched on and the identity when off. */
  lemma PartialDecComplete(bits: seq<bool>)
    ensures PartialDec(bits, |bits|, true) == DecBits(bits)
    ensures PartialDec(bits, |bits|, false) == bits
  {
    forall j | 0 <= j < |bits| ensures DecBits(bits)[j] == PartialDec(bits, |bits|, true)[j] {
      DecBitsAt(bits, j);
    }
  }

  /** Only coin qubit 0 steers the shift: states that agree on it and on the
      position register are shifted to the same position. */
  lemma ShiftIgnoresOtherCoins(nCoin: nat, k: nat, s: seq<bool>, t: seq<bool>)
    requires nCoin >= 1 && k >= 1 && |s| == |t| == nCoin + k
    requires s[0] == t[0] && s[nCoin..] == t[nCoin..]
    ensures AllClassicalOn(Shift(nCoin, k), nCoin + k)
    ensures Run(Shift(nCoin, k), s)[nCoin..] == Run(Shift(nCoin, k), t)[nCoin..]
  {
    ShiftEffect(nCoin, k, s);
    ShiftEffect(nCoin, k, t);
  }

  /** The shift is a permutation of basis states: no two states meet, every
      state is reached, and on positions increment undoes it. */
  lemma ShiftBijective(nCoin: nat, k: nat, s: seq<bool>, t: seq<bool>)
    requires nCoin >= 1 && k >= 1 && |s| == |t| == nCoin + k
    ensures AllClassicalOn(Shift(nCoin, k), nCoin + k)
    ensures Run(Shift(nCoin, k), s) == Run(Shift(nCoin, k), t) ==> s == t
    ensures AllClassicalOn(Reversed(Shift(nCoin, k)), nCoin + k)
    ensures Run(Shift(nCoin, k), Run(Reversed(Shift(nCoin, k)), t)) == t
    ensures s[0] ==> IncBits(Run(Shift(nCoin, k), s)[nCoin..]) == s[nCoin..]
  {
    var sh := Shift(nCoin, k);
    ShiftClassical(nCoin, k);
    if Run(sh, s) == Run(sh, t) {
      RunInjective(sh, s, t);
    }
    RunUndoesReversed(sh, t);
    ShiftEffect(nCoin, k, s);
    IncDecInverse(s[nCoin..]);
  }

  /** The gates after each step's coin gate are the shift chain `Shift(nCoin, nPos)`. */
  lemma WalkShiftBlock(nPos: nat, nSteps: nat, coinType: string, s: nat, nCoin: nat)
    requires nPos >= 1 && s < nSteps && nCoin == NumCoinQubits(coinType, nPos)
    ensures nCoin + s * (1 + nPos) + 1 + nPos <= |WalkGates(nPos, nSteps, coinType)|
    ensures WalkGates(nPos, nSteps, coinType)[nCoin + s * (1 + nPos) + 1..nCoin + s * (1 + nPos) + 1 + nPos]
         == Shift(nCoin, nPos)
  {
    WalkStepStart(coinType, nCoin, nPos, s);
    WalkStepTail(nPos, nSteps, coinType, s, nCoin, nCoin + s * (1 + nPos));
  }

  lemma WalkStepTail(nPos: nat, nSteps: nat, coinType: string, s: nat, nCoin: nat, at: nat)
    requires nPos >= 1 && s < nSteps && nCoin == NumCoinQubits(coinType, nPos)
    requires at == nCoin + |StepsGates(coinType, Range(0, nCoin), Range(nCoin, nPos + nCoin), s)|
    ensures at + 1 + nPos <= |WalkGates(nPos, nSteps, coinType)|
    ensures WalkGates(nPos, nSteps, coinType)[at + 1..at + 1 + nPos] == Shift(nCoin, nPos)
  {
    var step := StepGates(coinType, Range(0, nCoin), Range(nCoin, nPos + nCoin), s);
    WalkStepBlock(nPos, nSteps, coinType, s, nCoin);
    SliceTail(WalkGates(nPos, nSteps, coinType), step, at, nPos);
    StepTailIsShift(coinType, nCoin, nPos, s);
  }

  lemma StepTailIsShift(coinType: string, nCoin: nat, nPos: nat, s: nat)
    requires nCoin >= 1 && nPos >= 1
    ensures StepGates(coinType, Range(0, nCoin), Range(nCoin, nPos + nCoin), s)[1..] == Shift(nCoin, nPos)
  {
    assert nPos + nCoin == nCoin + nPos;
  }
}
