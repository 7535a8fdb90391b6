# Quantum-walk search, modelled in Dafny

This project models the parts of *quantum-walks-search* that are its own
discrete logic, and proves what they promise:

- the discrete-time coined walk of `src/coined_walk.py`:
  - the Grover and Hadamard coins, as exact real matrices;
  - the circuit builder, which lays out coin and position registers and
    appends the initial Hadamards, one coin gate and a CX/MCX shift chain
    per step, and the measurements;
  - the loop in `run_coined_walk` that turns the simulator's
    bitstring→count dictionary into a probability array;
- the search of `src/search.py`:
  - the search Hamiltonian `H = -γA + |w⟩⟨w|`;
  - the `linspace` time grid;
  - the sweep over that grid, with the matrix exponential left abstract;
  - the first-maximum selection;
  - the benchmark loop over graph sizes;
- the Monte Carlo estimate of the classical hitting time
  (`classical_hitting_time` in `src/graph_utils.py`).

Floats are Dafny `real`s, which are exact.

| file | module | contents |
|---|---|---|
| `wrappers.dfy` | `Wrappers` | `Option`, `Result` for the paths that raise |
| `matrices.dfy` | `Matrices` | matrices as rows, dot product, product, transpose, identity, sums |
| `bits.dfy` | `Bits` | powers of two; little-endian bit strings; decrement and increment with wrap-around |
| `coins.dfy` | `Coins` | `grover_coin`, `hadamard_coin` and their algebra |
| `circuits.dfy` | `Circuits` | the gate datatype; the circuit class its builder appends to; the classical action of CX/MCX on basis states |
| `coined_walk.dfy` | `CoinedWalk` | `build_coined_walk_circuit`: the gate list, the builder method, layout and shape lemmas, what the shift does |
| `walk_counts.dfy` | `WalkCounts` | `int(b, 2)`, the aggregation loop, `run_coined_walk` |
| `search.dfy` | `Search` | `build_search_hamiltonian`, `search_continuous_walk`, `benchmark_search` |
| `hitting_time.dfy` | `HittingTime` | `classical_hitting_time` |

Design notes:

- The builder is a method on a `QuantumCircuit` object whose `gates`
  sequence only grows. The method is proved to produce exactly the list
  that `CoinedWalk.WalkGates` describes.
- The two fill loops are methods over arrays. The probability fill is
  proved equal to `WalkCounts.Aggregate`. The success-probability fill is
  proved equal to `Search.SearchSpec`.
- The hitting-time loop is a method with a nested `while` and an early
  `break`. It is proved equal to `HittingTime.HittingTimeSpec`.

The shift chain is `cx(coin[0], pos[0])`, followed for each `i >= 1` by
`mcx(coin[:1] + pos[:i], pos[i])`. Each gate sees the bits the earlier
gates already flipped, so on basis states it turns position `p`
(`pos[0]` least significant) into `(p - 1) mod 2^k` when coin qubit 0 is
1. The comment on `src/coined_walk.py:59` calls this an increment; the
model follows the gates.

## Model

| member | source | states |
|---|---|---|
| Coins.GroverCoin | src/coined_walk.py:15-17 | the Grover coin on `k` qubits is a `2^k × 2^k` matrix |
| Coins.GroverEntries | src/coined_walk.py:15-17 | diagonal entries are `2/2^k − 1`, off-diagonal entries `2/2^k`, and the coin is symmetric |
| Coins.GroverRows | src/coined_walk.py:16 | every row and column of the coin is the vector `(2/2^k)·1 − e_i` |
| Coins.GroverRowSum | src/coined_walk.py:16 | every row of the Grover coin sums to 1 |
| Coins.GroverInvolution | src/coined_walk.py:16 | over exact reals the Grover coin squared is the identity |
| Coins.GroverOrthogonal | src/coined_walk.py:56-57 | the coin's transpose is its inverse, as `qc.unitary` demands of its matrix |
| Coins.GroverOneQubit | src/coined_walk.py:16 | on one coin qubit the Grover coin is exactly `[[0,1],[1,0]]` |
| Coins.HadamardCoin | src/coined_walk.py:20-22 | the Hadamard coin is a 2 × 2 matrix |
| Coins.HadamardInvolution | src/coined_walk.py:22 | given `invSqrt2² = 1/2`, the Hadamard coin is symmetric and squares to the identity |
| Bits.DecBitsValue | src/coined_walk.py:61-63 | the decrement on little-endian bits is subtraction of one modulo `2^k` |
| Bits.IncDecInverse | src/coined_walk.py:61-63 | increment and decrement undo each other, so the decrement is a bijection |
| Bits.DecBitsAt | src/coined_walk.py:61-63 | bit `j` of the decrement flips exactly when all lower bits were 0 |
| Bits.DecBits | src/coined_walk.py:59-63 | reference definition of "subtract one, wrapping around" on little-endian bits, against which the shift is proved (`Bits.DecBitsValue`, `CoinedWalk.ShiftEffect`); its contract keeps the width |
| Circuits.QuantumCircuit.constructor | src/coined_walk.py:42 | a new circuit has the requested register sizes and no gates |
| Circuits.QuantumCircuit.H | src/coined_walk.py:49 | `h` appends one Hadamard on an existing qubit and keeps the circuit valid |
| Circuits.QuantumCircuit.Unitary | src/coined_walk.py:57 | `unitary` appends a unitary gate; it requires distinct existing qubits and an orthogonal matrix of matching dimension |
| Circuits.QuantumCircuit.Cx | src/coined_walk.py:61 | `cx` appends a CX gate; it requires a control and a target that exist and differ |
| Circuits.QuantumCircuit.Mcx | src/coined_walk.py:63 | `mcx` appends a multi-controlled X gate; it requires distinct existing qubits |
| Circuits.QuantumCircuit.Measure | src/coined_walk.py:67 | `measure` appends a measurement of an existing qubit into an existing classical bit |
| Circuits.ApplyXInvolution | src/coined_walk.py:61-63 | a CX/MCX whose target is not a control, applied twice, restores the basis state |
| Circuits.AllClassicalOnConcat | src/coined_walk.py:61-63 | supporting lemma: the concatenation of two classical gate lists is classical |
| Circuits.AllClassicalOnPrefix | src/coined_walk.py:61-63 | supporting lemma: every prefix of a classical gate list is classical |
| Circuits.RunSnoc | src/coined_walk.py:61-63 | supporting lemma: running a list and then one more gate is running the extended list |
| Circuits.RunAppend | src/coined_walk.py:61-63 | running two gate lists in turn is running their concatenation |
| Circuits.RunReversedUndoes | src/coined_walk.py:61-63 | running a CX/MCX list and then its reverse restores every basis state |
| Circuits.RunUndoesReversed | src/coined_walk.py:61-63 | every basis state is the image of some basis state under a CX/MCX list |
| Circuits.RunInjective | src/coined_walk.py:61-63 | a CX/MCX list maps distinct basis states to distinct basis states |
| CoinedWalk.Range | src/coined_walk.py:44-45 | `list(range(lo, hi))` has `hi − lo` entries and entry `i` is `lo + i` |
| CoinedWalk.NumCoinQubits | src/coined_walk.py:40 | definition: one coin qubit when `coin_type == 'hadamard'`, otherwise as many as position qubits; its consequences are stated by `RegisterLayout` |
| CoinedWalk.Decimal | src/coined_walk.py:57 | definition: the decimal digits of `step` in the label `C{step}` |
| CoinedWalk.InitGates | src/coined_walk.py:47-49 | definition: `h` on each coin qubit in order; one gate per coin qubit (stated by `WalkEnds`) |
| CoinedWalk.CoinGate | src/coined_walk.py:52-57 | definition: the coin branch, `h(coin[0])` for a Hadamard walk with one coin qubit, otherwise the Grover coin labelled `C{step}` (stated in the circuit by `WalkCoinGate`) |
| CoinedWalk.ShiftGates | src/coined_walk.py:59-63 | definition: `cx(coin[0], pos[0])`, then `mcx(coin[:1] + pos[:i], pos[i])`; one gate per position qubit, whose shape and effect `ShiftGateAt` and `ShiftEffect` state |
| CoinedWalk.StepGates | src/coined_walk.py:52-63 | definition: the coin gate of one step followed by its shift; `1 + nPos` gates |
| CoinedWalk.StepsGates | src/coined_walk.py:51-63 | definition: the gates of steps `0 .. n−1` in order; its length and layout are stated by `StepsGatesLength`, `StepsGatesPrefix` and `StepsGatesBlock` |
| CoinedWalk.MeasureGates | src/coined_walk.py:65-67 | definition: `measure(pos_qubits[i], i)` for each position qubit; one gate per position qubit |
| CoinedWalk.WalkGates | src/coined_walk.py:40-67 | definition: the whole gate list, initial Hadamards, then the steps, then the measurements; the builder is proved to produce it (`BuildCoinedWalkCircuit`) and its shape is stated by `WalkGateCount`, `WalkEnds`, `WalkCoinGate`, `WalkShiftGate` and `WalkShiftBlock` |
| CoinedWalk.BuildCoinedWalkCircuit | src/coined_walk.py:25-69 | the builder returns a valid fresh circuit on `nPos + nCoin` qubits and `nPos` classical bits, holding exactly the gate list `WalkGates` |
| CoinedWalk.AppendStep | src/coined_walk.py:52-63 | one step appends its coin gate and then the shift chain, keeping the circuit valid |
| CoinedWalk.AppendCoin | src/coined_walk.py:52-57 | the coin branch appends `h(coin[0])` for a Hadamard walk with one coin qubit and otherwise the Grover coin labelled `C{step}`, keeping the circuit valid |
| CoinedWalk.AppendShift | src/coined_walk.py:61-63 | the shift loop appends exactly the gate list `ShiftGates`, one `cx` then one `mcx` per further position qubit |
| CoinedWalk.AppendInit | src/coined_walk.py:47-49 | the initial loop appends `h` on every coin qubit, in order |
| CoinedWalk.AppendMeasures | src/coined_walk.py:65-67 | the final loop appends `measure(pos_qubits[i], i)` for every position qubit, in order |
| CoinedWalk.ShiftOperandsValid | src/coined_walk.py:63 | the qubits of each `mcx` call exist and are pairwise distinct |
| CoinedWalk.RegisterLayout | src/coined_walk.py:40-45 | a Hadamard walk has 1 coin qubit and any other coin type has `nPos`; position qubits come after the coin qubits, the two ranges are disjoint, and together they are exactly `0 .. n_total−1` |
| CoinedWalk.WalkGateCount | src/coined_walk.py:47-67 | the circuit has `nCoin + nSteps·(1 + nPos) + nPos` gates |
| CoinedWalk.StepsGatesLength | src/coined_walk.py:51-63 | `n` steps contribute `n·(1 + nPos)` gates |
| CoinedWalk.StepsGatesPrefix | src/coined_walk.py:51-63 | the gates of the first `m` steps are a prefix of the gates of the first `n ≥ m` steps: later steps only append |
| CoinedWalk.StepsGatesBlock | src/coined_walk.py:51-63 | the gates of step `s` are the `1 + nPos` gates that directly follow the gates of steps `0 .. s−1` |
| CoinedWalk.WalkEnds | src/coined_walk.py:47-67 | the circuit opens with `h` on every coin qubit and ends with position qubit `i` measured into classical bit `i` |
| CoinedWalk.ZeroStepsWalk | src/coined_walk.py:51-67 | with zero steps the circuit has `nCoin + nPos` gates, and every gate before the measurements is a Hadamard on a coin qubit |
| CoinedWalk.StepsInWalk | src/coined_walk.py:47-63 | supporting lemma: a slice of the step block is the same slice of the circuit, offset by the `nCoin` initial Hadamards |
| CoinedWalk.WalkStepBlock | src/coined_walk.py:47-63 | in the circuit, the gates of step `s` sit right after the `nCoin` initial Hadamards and the gates of the earlier steps |
| CoinedWalk.WalkStepStart | src/coined_walk.py:51-63 | the earlier steps take `s·(1 + nPos)` gates, so step `s` starts at `nCoin + s·(1 + nPos)` |
| CoinedWalk.WalkCoinGate | src/coined_walk.py:52-57 | step `s` begins with `h(0)` for a Hadamard walk, and otherwise with the Grover coin on all coin qubits labelled `C{s}` |
| CoinedWalk.WalkShiftGate | src/coined_walk.py:59-63 | shift gate `j` of every step targets position qubit `j`, controlled by coin qubit 0 and position qubits `0 .. j−1` |
| CoinedWalk.ShiftGateAt | src/coined_walk.py:61-63 | shift gate `i` is a CX/MCX on position qubit `i` whose controls are coin qubit 0 followed by position qubits `0 .. i−1` |
| CoinedWalk.ShiftIsChain | src/coined_walk.py:61-63 | every gate of the shift has that shape, at its own index |
| CoinedWalk.ShapeClassical | src/coined_walk.py:61-63 | a gate of that shape on an existing position qubit names only existing qubits and its target is not a control |
| CoinedWalk.ChainClassical | src/coined_walk.py:61-63 | every gate of a chain of that shape acts classically on the whole register |
| CoinedWalk.ShiftClassical | src/coined_walk.py:61-63 | every gate of the shift acts classically on basis states of the whole register |
| CoinedWalk.PrefixFlippedIffLowZero | src/coined_walk.py:61-63 | after the partial decrement the low bits are all 1 exactly when they were all 0 before it |
| CoinedWalk.ShiftControlsSet | src/coined_walk.py:63 | shift gate `i` fires exactly when coin qubit 0 is 1 and position bits `0 .. i−1` were all 0 |
| CoinedWalk.ShapeControls | src/coined_walk.py:61-63 | a gate of the chain's shape for position qubit `j` fires exactly when coin qubit 0 and position qubits `0 .. j−1` are all 1 |
| CoinedWalk.ControlsOfPartial | src/coined_walk.py:61-63 | after the gates before it, gate `j` fires exactly when coin qubit 0 is 1 and each position bit below `j` has flipped |
| CoinedWalk.PartialDecComplete | src/coined_walk.py:59-63 | with all bits processed, the partial decrement is the full decrement when coin qubit 0 is 1 and leaves the bits alone otherwise |
| CoinedWalk.ShiftStep | src/coined_walk.py:62-63 | each shift gate extends the partial decrement by one bit |
| CoinedWalk.ShiftPrefix | src/coined_walk.py:61-63 | after the first `i` shift gates the coin is unchanged and the low `i` position bits hold the decrement when coin qubit 0 is 1 |
| CoinedWalk.ChainRun | src/coined_walk.py:59-63 | a whole chain of the shift's shape leaves the coin register and applies the partial decrement to all `k` position bits |
| CoinedWalk.ChainEffect | src/coined_walk.py:59-63 | any chain of that shape leaves the coin register alone and maps position `p` to `(p − 1) mod 2^k` when coin qubit 0 is 1, and leaves `p` otherwise |
| CoinedWalk.ShiftEffect | src/coined_walk.py:59-63 | the shift leaves the coin register alone; it maps position `p` to `(p − 1) mod 2^k` when coin qubit 0 is 1, and leaves `p` unchanged otherwise |
| CoinedWalk.ShiftIgnoresOtherCoins | src/coined_walk.py:61-63 | coin qubits other than 0 never affect the new position |
| CoinedWalk.ShiftBijective | src/coined_walk.py:61-63 | the shift is a bijection on basis states (injective and onto), and increment undoes it on positions |
| CoinedWalk.WalkShiftBlock | src/coined_walk.py:59-63 | in the built circuit, the `nPos` gates after the coin gate of each step `s` (at `nCoin + s·(1 + nPos)`) are exactly the shift analysed above |
| CoinedWalk.WalkStepTail | src/coined_walk.py:59-63 | the gates after a step's coin gate, counted from wherever that step starts, are the shift |
| WalkCounts.ParseBinaryBound | src/coined_walk.py:89 | a key of length `k` parses to an index below `2^k` |
| WalkCounts.ParseBinary | src/coined_walk.py:89 | definition of `int(bitstring, 2)` on keys: the binary value, or `ValueError` for the empty string or a character other than `0`/`1`; stated by `ParseBinaryBound`, `ToBinaryRoundTrip`, `BinValueRoundTrip` and `ParseBinaryInjective` |
| WalkCounts.ToBinaryRoundTrip | src/coined_walk.py:89 | writing a number below `2^w` in `w` binary digits and parsing it gives the number back |
| WalkCounts.BinValueRoundTrip | src/coined_walk.py:89 | parsing a binary string and writing the value at the same width gives the string back |
| WalkCounts.ParseBinaryInjective | src/coined_walk.py:89 | distinct binary keys of one length parse to distinct indices |
| WalkCounts.CountsKeyValue | src/coined_walk.py:66-67 | a measured register's key, highest classical bit first, parses to the little-endian value of the position qubits |
| WalkCounts.DistinctKeysWellFormed | src/coined_walk.py:88-90 | distinct binary keys of length `k` index distinct positions below `2^k`, so no store overwrites another |
| WalkCounts.Aggregate | src/coined_walk.py:86-90 | a successful aggregation has `2^k` entries |
| WalkCounts.AggregateCounts | src/coined_walk.py:86-90 | the array fill returns what `Aggregate` specifies, stopping at the first key that raises |
| WalkCounts.FailureSticks | src/coined_walk.py:88-90 | once an item raises, that error is the result of the whole loop |
| WalkCounts.AggregateSucceedsIff | src/coined_walk.py:88-90 | the loop succeeds exactly when every key is binary and in range, and `shots > 0` or there are no items |
| WalkCounts.ZeroShotsRaises | src/coined_walk.py:90 | with zero shots the first binary key raises a division by zero |
| WalkCounts.AggregateEntries | src/coined_walk.py:86-90 | each counted key's index holds `count/shots` and every other entry is 0 |
| WalkCounts.AggregateSum | src/coined_walk.py:86-90 | the entries sum to the total count divided by `shots` |
| WalkCounts.AggregateIsDistribution | src/coined_walk.py:86-90 | when the counts add up to `shots` the entries sum to 1 |
| WalkCounts.RunCoinedWalk | src/coined_walk.py:72-96 | the run fails exactly when the aggregation does, with its error; otherwise it returns positions `0 .. 2^k−1`, the aggregated distribution, and the walk circuit |
| Search.Oracle | src/search.py:23-24 | the oracle is an `n × n` matrix |
| Search.OracleSingleEntry | src/search.py:23-24 | the oracle has exactly one non-zero entry, a 1 at `(w, w)` |
| Search.BuildSearchHamiltonian | src/search.py:11-27 | the Hamiltonian is an `n × n` matrix |
| Search.HamiltonianAt | src/search.py:26 | entry `(i, j)` of `H` is `−γ·A[i][j]`, plus 1 when `i = j = w` |
| Search.HamiltonianEntries | src/search.py:23-26 | `H[w][w] = −γ·A[w][w] + 1`, and every other entry is `−γ·A[i][j]` |
| Search.HamiltonianSymmetric | src/search.py:26 | `H` is symmetric if `A` is, and for `γ ≠ 0` only if `A` is |
| Search.Linspace | src/search.py:56 | the time grid has `n_time_steps` points |
| Search.LinspaceShape | src/search.py:56 | the grid starts at 0, ends exactly at `time`, and neighbouring points are `time/(n − 1)` apart |
| Search.LinspaceBounds | src/search.py:56 | for a non-negative horizon every grid point lies in `[0, time]` |
| Search.ArgMax | src/search.py:69 | `argmax` returns an index whose entry is at least every entry and strictly above every earlier one, i.e. the first maximum |
| Search.SuccessProbs | src/search.py:63-67 | there is one success probability per grid time |
| Search.Coupling | src/search.py:50-51 | with no `gamma` given the coupling is the `c` with `c·n = 1`, i.e. `1/n`; a given `gamma` is used as is; it requires `n > 0` when `gamma` is absent, where the source divides by zero |
| Search.SearchSpec | src/search.py:48-76 | definition of one search: horizon, grid, Hamiltonian with the coupling, sweep and first-maximum selection; stated by `SearchOutcome` and implemented by `SearchContinuousWalk` |
| Search.SearchContinuousWalk | src/search.py:30-76 | the sweep loop and the selection return what `SearchSpec` specifies |
| Search.SearchOutcome | src/search.py:50-76 | a search fails exactly on an empty grid. Otherwise: `γ` defaults to `1/n`; entry `i` of the sweep is the evolution to grid time `i`; `max_probability` is at least every entry; `optimal_time` is the grid time of the first maximum |
| Search.BenchmarkSearch | src/search.py:79-103 | the benchmark fails exactly when there is a size and the grid is empty. Otherwise it returns the sizes in input order and two lists as long as the sizes, whose entry `i` is the optimal time and maximum probability of the default search on `graph_builder(node_counts[i])` |
| HittingTime.ClassicalHittingTime | src/graph_utils.py:34-56 | the nested loop computes what `HittingTimeSpec` specifies |
| HittingTime.Trial | src/graph_utils.py:46-53 | definition of one trial: stop at the target, otherwise move to the drawn neighbour and stop once the step count exceeds `10·N²`; stated by `TrialShape`, `TrialFromStart`, `TrialStaysInGraph` and `TrialErrorIsLookup` |
| HittingTime.Trials | src/graph_utils.py:45-54 | definition: `n` trials in sequence, each starting at `start` with the next unused draw, summing their steps; bounded by `TrialsBound` |
| HittingTime.HittingTimeSpec | src/graph_utils.py:45-56 | definition of the estimate: the total steps over `n_trials`, or the division by zero when `n_trials = 0`; stated by `HittingTimeBounds` and `HittingTimeAtTarget` |
| HittingTime.TrialShape | src/graph_utils.py:46-53 | a trial stops at the target or just after its step count exceeds `10·N²`, not earlier; it takes at most `10·N² + 1` steps, one draw per step; each move goes to a neighbour of the current node |
| HittingTime.TrialFromStart | src/graph_utils.py:45-53 | a trial from `start` visits one node more than it takes steps, begins at `start`, takes at most `10·N² + 1` steps, and moves only along edges |
| HittingTime.TrialStaysInGraph | src/graph_utils.py:49-50 | in a graph whose neighbour lists name only nodes, a walk from a node fails only at a node without neighbours |
| HittingTime.TrialErrorIsLookup | src/graph_utils.py:48-53 | a single trial never raises the division-by-zero error |
| HittingTime.TrialsBound | src/graph_utils.py:45-54 | `n` trials take at most `n·(10·N² + 1)` steps in total |
| HittingTime.MeanBound | src/graph_utils.py:56 | supporting lemma: a total of at most `n·b` over `n > 0` trials averages to a value in `[0, b]` |
| HittingTime.HittingTimeBounds | src/graph_utils.py:54-56 | the estimate lies in `[0, 10·N² + 1]`, and it raises the division by zero exactly when `n_trials = 0` |
| HittingTime.TrialsAtTarget | src/graph_utils.py:45-48 | from the target every trial takes 0 steps and draws nothing |
| HittingTime.HittingTimeAtTarget | src/graph_utils.py:46-56 | when `start == target` the estimate is 0 |

## Left out

- `src/plotting.py` and `src/continuous_walk.py` are not part of this model. The first is chart rendering and file output. The second is a thin wrapper over library calls.
- Circuit simulation is not modelled: the `AerSimulator` run and the counts it returns (`src/coined_walk.py:82-84`). The counts dictionary is an input of `RunCoinedWalk`, as a sequence of (key, count) pairs in the dictionary's order.
- Quantum amplitudes are not modelled. The gates have only a classical meaning on basis states. That meaning is given for CX and MCX, which is what the shift needs. H, unitary and measure gates are only recorded.
- WalkCounts.CountsKeyValue: relies on the simulator writing classical bit `n − 1` first in each key. That convention belongs to the simulator library.
- ParseBinary: accepts only strings of `0` and `1`. Python's `int(b, 2)` also accepts surrounding whitespace, underscores, a `0b` prefix and a sign, none of which appears in a counts key.
- Search.SearchContinuousWalk: the matrix exponential, the complex initial state and `|ψ_t[w]|²` (`src/search.py:59-67`) form one abstract function `evolve(H, w, t)`. The evolution itself is floating-point numerics in a foreign library.
- Irrational constants are parameters, because they are not exact reals:
  - `1/√2` in `hadamard_coin` (`invSqrt2`);
  - the default horizon `π/2·√n` (`defaultTime` in `SearchContinuousWalk`, `horizon(n)` in `BenchmarkSearch`).
- Coins.HadamardCoin: the builder never uses this matrix. A Hadamard walk applies the `h` gate, as the source does.
- Search.BuildSearchHamiltonian: takes the adjacency matrix directly instead of a graph. Building that matrix is a library call.
- Search.BuildSearchHamiltonian: requires `0 ≤ w < n`. An index outside that range either raises at `src/search.py:24`, or, when negative, wraps around in numpy.
- Search.BenchmarkSearch: `graph_builder` is a function from a size to an adjacency matrix. The progress `print` calls (`src/search.py:91`, `:97`) are console output and are omitted.
- The unused import at `src/search.py:8` is not modelled.
- CoinedWalk.BuildCoinedWalkCircuit: requires `nPos ≥ 1` whenever `nSteps ≥ 1`. Otherwise `pos_qubits[0]` at `src/coined_walk.py:61` raises, and that error path is not modelled.
- CoinedWalk.BuildCoinedWalkCircuit: the circuit library's own checks on appended gates are summarised by `Circuits.WellFormed`: qubit and classical-bit indices exist, no qubit repeats, and a unitary has the right dimension and is unitary.
- CoinedWalk.BuildCoinedWalkCircuit: the label `C{step}` is kept as a decimal string.
- HittingTime.ClassicalHittingTime: the seeded `RandomState` is replaced by a function `choice(k, m)` giving the `k`-th draw of `randint(m)`, assumed to lie in `[0, m)`. The Mersenne Twister sequence itself is not modelled.
- HittingTime.ClassicalHittingTime: the graph is a map from each node to its neighbour list, and `N` is the number of keys. The unused `node_to_idx` (`src/graph_utils.py:43`) is dropped.
- Default arguments are kept where the parameter is modelled: `coinType := "grover"` (`BuildCoinedWalkCircuit`, `RunCoinedWalk`), `shots := 8192`, `gamma := 1.0` (`BuildSearchHamiltonian`), `gamma := None`, `time := None` and `nTimeSteps := 200` (`SearchContinuousWalk`), `w := 0` and `nTimeSteps := 200` (`BenchmarkSearch`), `nTrials := 10000`. The two `seed=42` defaults (`src/coined_walk.py:73`, `src/graph_utils.py:34`) belong to the simulator and the random generator, which are parameters here.
- Counts and sizes are `nat`, so negative arguments are not modelled: a negative `n_steps` builds the zero-step circuit, a negative `n_time_steps` makes `np.linspace` raise `ValueError`, and a negative `n_trials` runs no trial and returns `-0.0`.
- Floating-point rounding is not modelled; all arithmetic is exact. In particular the last grid point is exactly `time`, which numpy also enforces.
