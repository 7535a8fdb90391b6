/** The part of a quantum circuit the coined walk uses: a gate list that the
    builder appends to, and a classical semantics of the X-family gates
    (CX, MCX) on computational basis states. */
module Circuits {
  import opened Matrices
  import opened Bits

  datatype Gate =
    | HGate(qubit: nat)
    | UnitaryGate(matrix: Matrix, qubits: seq<nat>, name: string)
    | CXGate(control: nat, target: nat)
    | MCXGate(controls: seq<nat>, target: nat)
    | MeasureGate(qubit: nat, clbit: nat)
  {
    /** The gates that act classically on basis states: they flip one target bit. */
    predicate IsXFamily() {
      CXGate? || MCXGate?
    }

    function ControlQubits(): seq<nat>
      requires IsXFamily()
    {
      if CXGate? then [control] else controls
    }

    /** Every qubit the gate acts on. */
    function Qubits(): seq<nat> {
      match this
      case HGate(q) => [q]
      case UnitaryGate(_, qs, _) => qs
      case CXGate(c, t) => [c, t]
      case MCXGate(cs, t) => cs + [t]
      case MeasureGate(q, _) => [q]
    }
  }

  predicate Distinct(qs: seq<nat>) {
    forall i, j :: 0 <= i < j < |qs| ==> qs[i] != qs[j]
  }

  predicate InRange(qs: seq<nat>, n: nat) {
    forall i :: 0 <= i < |qs| ==> qs[i] < n
  }

  /** What the circuit library checks when a gate is appended: qubit and
      clbit indices exist, no qubit is named twice, and a unitary has the
      dimension of its qubits and is unitary. */
  predicate WellFormed(g: Gate, numQubits: nat, numClbits: nat) {
    && InRange(g.Qubits(), numQubits)
    && Distinct(g.Qubits())
    && (g.MeasureGate? ==> g.clbit < numClbits)
    && (g.UnitaryGate? ==> IsSquare(g.matrix, Pow2(|g.qubits|)) && IsOrthogonal(g.matrix, Pow2(|g.qubits|)))
  }

  /** A circuit under construction: a register size and a gate list that only grows. */
  class QuantumCircuit {
    const numQubits: nat
    const numClbits: nat
    var gates: seq<Gate>

    ghost predicate Valid()
      reads this
    {
      forall i :: 0 <= i < |gates| ==> WellFormed(gates[i], numQubits, numClbits)
    }

    constructor (numQubits: nat, numClbits: nat)
      ensures this.numQubits == numQubits && this.numClbits == numClbits
      ensures gates == [] && Valid()
    {
      this.numQubits := numQubits;
      this.numClbits := numClbits;
      gates := [];
    }

    method Append(g: Gate)
      requires Valid() && WellFormed(g, numQubits, numClbits)
      modifies this
      ensures Valid() && gates == old(gates) + [g]
    {
      gates := gates + [g];
    }

    method H(q: nat)
      requires Valid() && q < numQubits
      modifies this
      ensures Valid() && gates == old(gates) + [HGate(q)]
    {
      Append(HGate(q));
    }

    method Unitary(m: Matrix, qubits: seq<nat>, name: string)
      requires Valid() && InRange(qubits, numQubits) && Distinct(qubits)
      requires IsSquare(m, Pow2(|qubits|)) && IsOrthogonal(m, Pow2(|qubits|))
      modifies this
      ensures Valid() && gates == old(gates) + [UnitaryGate(m, qubits, name)]
    {
      Append(UnitaryGate(m, qubits, name));
    }

    method Cx(control: nat, target: nat)
      requires Valid() && control < numQubits && target < numQubits && control != target
      modifies this
      ensures Valid() && gates == old(gates) + [CXGate(control, target)]
    {
      Append(CXGate(control, target));
    }

    method Mcx(controls: seq<nat>, target: nat)
      requires Valid() && InRange(controls + [target], numQubits) && Distinct(controls + [target])
      modifies this
      ensures Valid() && gates == old(gates) + [MCXGate(controls, target)]
    {
      Append(MCXGate(controls, target));
    }

    method Measure(q: nat, c: nat)
      requires Valid() && q < numQubits && c < numClbits
      modifies this
      ensures Valid() && gates == old(gates) + [MeasureGate(q, c)]
    {
      Append(MeasureGate(q, c));
    }
  }

  // ---------------------------------------------------------------------
  // Classical semantics of the X family on basis states (one bool per qubit)

  /** An X-family gate that can act on a basis state of `n` qubits: its
      qubits exist and its target is not one of its controls. */
  predicate ClassicalOn(g: Gate, n: nat) {
    && g.IsXFamily()
    && InRange(g.ControlQubits(), n)
    && g.target < n
    && forall k :: 0 <= k < |g.ControlQubits()| ==> g.ControlQubits()[k] != g.target
  }

  predicate AllClassicalOn(gs: seq<Gate>, n: nat) {
    forall i :: 0 <= i < |gs| ==> ClassicalOn(gs[i], n)
  }

  predicate ControlsSet(g: Gate, s: seq<bool>)
    requires ClassicalOn(g, |s|)
  {
    var cs := g.ControlQubits();
    forall k :: 0 <= k < |cs| ==> s[cs[k]]
  }

  /** A CX or MCX flips its target exactly when all its controls are 1. */
  function ApplyX(g: Gate, s: seq<bool>): (r: seq<bool>)
    requires ClassicalOn(g, |s|)
    ensures |r| == |s|
  {
    if ControlsSet(g, s) then s[g.target := !s[g.target]] else s
  }

  /** Run a list of X-family gates, first gate first. */
  function Run(gs: seq<Gate>, s: seq<bool>): (r: seq<bool>)
    requires AllClassicalOn(gs, |s|)
    ensures |r| == |s|
  {
    if gs == [] then s else ApplyX(gs[|gs| - 1], Run(gs[..|gs| - 1], s))
  }

  function Reversed(gs: seq<Gate>): (r: seq<Gate>)
    ensures |r| == |gs|
    ensures forall i :: 0 <= i < |gs| ==> r[i] == gs[|gs| - 1 - i]
  {
    if gs == [] then [] else [gs[|gs| - 1]] + Reversed(gs[..|gs| - 1])
  }

  /** Because the target of an X-family gate is never one of its controls,
      applying it twice restores the state. */
  lemma ApplyXInvolution(g: Gate, s: seq<bool>)
    requires ClassicalOn(g, |s|)
    ensures ApplyX(g, ApplyX(g, s)) == s
  {
    var cs := g.ControlQubits();
    if ControlsSet(g, s) {
      var s1 := s[g.target := !s[g.target]];
      assert forall k :: 0 <= k < |cs| ==> s1[cs[k]] == s[cs[k]];
      assert ControlsSet(g, s1);
    }
  }

  lemma AllClassicalOnConcat(gs: seq<Gate>, hs: seq<Gate>, n: nat)
    requires AllClassicalOn(gs, n) && AllClassicalOn(hs, n)
    ensures AllClassicalOn(gs + hs, n)
  {
    forall i | 0 <= i < |gs + hs| ensures ClassicalOn((gs + hs)[i], n) {
      if i < |gs| { assert (gs + hs)[i] == gs[i]; } else { assert (gs + hs)[i] == hs[i - |gs|]; }
    }
  }

  lemma AllClassicalOnPrefix(gs: seq<Gate>, k: nat, n: nat)
    requires k <= |gs| && AllClassicalOn(gs, n)
    ensures AllClassicalOn(gs[..k], n)
  {
    forall i | 0 <= i < k ensures ClassicalOn(gs[..k][i], n) {
      assert gs[..k][i] == gs[i];
    }
  }

  /** Running a list with one more gate at the end applies that gate last. */
  lemma RunSnoc(gs: seq<Gate>, g: Gate, s: seq<bool>)
    requires AllClassicalOn(gs, |s|) && ClassicalOn(g, |s|)
    ensures AllClassicalOn(gs + [g], |s|)
    ensures Run(gs + [g], s) == ApplyX(g, Run(gs, s))
  {
    AllClassicalOnConcat(gs, [g], |s|);
    var all := gs + [g];
    assert all[..|all| - 1] == gs;
  }

  /** Running two gate lists in turn is running their concatenation. */
  lemma {:induction false} RunAppend(gs: seq<Gate>, hs: seq<Gate>, s: seq<bool>)
    requires AllClassicalOn(gs, |s|) && AllClassicalOn(hs, |s|)
    ensures AllClassicalOn(gs + hs, |s|)
    ensures Run(gs + hs, s) == Run(hs, Run(gs, s))
  {
    AllClassicalOnConcat(gs, hs, |s|);
    if hs == [] {
      assert gs + hs == gs;
    } else {
      var init, last := hs[..|hs| - 1], hs[|hs| - 1];
      assert hs == init + [last];
      assert gs + hs == (gs + init) + [last];
      AllClassicalOnPrefix(hs, |hs| - 1, |s|);
      RunAppend(gs, init, s);
      RunSnoc(gs + init, last, s);
      RunSnoc(init, last, Run(gs, s));
    }
  }

  /** Running the gates in reverse order undoes them: an X-family gate list
      is a bijection on basis states. */
  lemma {:induction false} RunReversedUndoes(gs: seq<Gate>, s: seq<bool>)
    requires AllClassicalOn(gs, |s|)
    ensures AllClassicalOn(Reversed(gs), |s|)
    ensures Run(Reversed(gs), Run(gs, s)) == s
  {
    if gs != [] {
      var init, last := gs[..|gs| - 1], gs[|gs| - 1];
      var mid := Run(init, s);
      assert Reversed(gs) == [last] + Reversed(init);
      RunReversedUndoes(init, s);
      RunAppend([last], Reversed(init), ApplyX(last, mid));
      assert Run([last], ApplyX(last, mid)) == ApplyX(last, ApplyX(last, mid)) by {
        assert [last][..0] == [];
      }
      ApplyXInvolution(last, mid);
    }
  }

  lemma ReversedTwice(gs: seq<Gate>)
    ensures Reversed(Reversed(gs)) == gs
  {
  }

  /** Every basis state is reached: running the reversed list first and then
      the list itself gives the state back. */
  lemma RunUndoesReversed(gs: seq<Gate>, t: seq<bool>)
    requires AllClassicalOn(gs, |t|)
    ensures AllClassicalOn(Reversed(gs), |t|)
    ensures Run(gs, Run(Reversed(gs), t)) == t
  {
    RunReversedUndoes(gs, t);
    ReversedTwice(gs);
    RunReversedUndoes(Reversed(gs), t);
  }

  lemma RunInjective(gs: seq<Gate>, s: seq<bool>, t: seq<bool>)
    requires |s| == |t| && AllClassicalOn(gs, |s|)
    requires Run(gs, s) == Run(gs, t)
    ensures s == t
  {
    RunReversedUndoes(gs, s);
    RunReversedUndoes(gs, t);
  }
}
