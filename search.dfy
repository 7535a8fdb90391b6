/** Search for a marked vertex with a continuous-time walk (src/search.py):
    the search Hamiltonian, the time grid, the sweep over it with the
    evolution left abstract, the choice of the best time, and the benchmark
    over several graph sizes. */
module Search {
  import opened Wrappers
  import opened Matrices

  // ---------------------------------------------------------------------
  // build_search_hamiltonian

  /** The projector `|w><w|`: an `n x n` zero matrix with a 1 at `(w, w)`. */
  function Oracle(n: nat, w: nat): (o: Matrix)
    requires w < n
    ensures IsSquare(o, n)
  {
    Zeros(n)[w := Zeros(n)[w][w := 1.0]]
  }

  /** `H = -gamma A + |w><w|` for the adjacency matrix `A` of an `|A|`-node graph. */
  function BuildSearchHamiltonian(A: Matrix, w: nat, gamma: real := 1.0): (h: Matrix)
    requires IsSquare(A, |A|) && w < |A|
    ensures IsSquare(h, |A|)
  {
    Add(Scale(-gamma, A), Oracle(|A|, w), |A|, |A|)
  }

  /** The oracle has exactly one non-zero entry, a 1 on the diagonal at `w`. */
  lemma OracleSingleEntry(n: nat, w: nat)
    requires w < n
    ensures Oracle(n, w)[w][w] == 1.0
    ensures forall i, j :: 0 <= i < n && 0 <= j < n && (i != w || j != w) ==> Oracle(n, w)[i][j] == 0.0
  {
  }

  /** One entry of the Hamiltonian. */
  lemma HamiltonianAt(A: Matrix, w: nat, gamma: real, i: nat, j: nat)
    requires IsSquare(A, |A|) && w < |A| && i < |A| && j < |A|
    ensures BuildSearchHamiltonian(A, w, gamma)[i][j] == -gamma * A[i][j] + (if i == w && j == w then 1.0 else 0.0)
  {
  }

  /** Off `(w, w)` the Hamiltonian is the scaled adjacency matrix; at
      `(w, w)` the oracle adds 1. */
  lemma HamiltonianEntries(A: Matrix, w: nat, gamma: real)
    requires IsSquare(A, |A|) && w < |A|
    ensures BuildSearchHamiltonian(A, w, gamma)[w][w] == -gamma * A[w][w] + 1.0
    ensures forall i, j :: 0 <= i < |A| && 0 <= j < |A| && (i != w || j != w) ==>
      BuildSearchHamiltonian(A, w, gamma)[i][j] == -gamma * A[i][j]
  {
    HamiltonianAt(A, w, gamma, w, w);
    forall i, j | 0 <= i < |A| && 0 <= j < |A| && (i != w || j != w)
      ensures BuildSearchHamiltonian(A, w, gamma)[i][j] == -gamma * A[i][j]
    {
      HamiltonianAt(A, w, gamma, i, j);
    }
  }

  /** The Hamiltonian is symmetric when the graph's adjacency matrix is, and
      for a non-zero coupling only then. */
  lemma HamiltonianSymmetric(A: Matrix, w: nat, gamma: real)
    requires IsSquare(A, |A|) && w < |A|
    ensures Symmetric(A) ==> Symmetric(BuildSearchHamiltonian(A, w, gamma))
    ensures gamma != 0.0 && Symmetric(BuildSearchHamiltonian(A, w, gamma)) ==> Symmetric(A)
  {
    var h := BuildSearchHamiltonian(A, w, gamma);
    if Symmetric(A) {
      forall i, j | 0 <= i < |A| && 0 <= j < |A| ensures h[i][j] == h[j][i] {
        HamiltonianAt(A, w, gamma, i, j);
        HamiltonianAt(A, w, gamma, j, i);
      }
    }
    if gamma != 0.0 && Symmetric(h) {
      forall i, j | 0 <= i < |A| && 0 <= j < |A| ensures A[i][j] == A[j][i] {
        HamiltonianAt(A, w, gamma, i, j);
        HamiltonianAt(A, w, gamma, j, i);
        assert h[i][j] == h[j][i];
        CancelFactor(-gamma, A[i][j], A[j][i]);
      }
    }
  }

  lemma CancelFactor(c: real, x: real, y: real)
    requires c != 0.0 && c * x == c * y
    ensures x == y
  {
  }

  // ---------------------------------------------------------------------
  // The time grid: np.linspace(0, T, num)

  /** `num` evenly spaced points from 0 to `T`, both ends included. */
  function Linspace(T: real, num: nat): (ts: seq<real>)
    ensures |ts| == num
  {
    if num <= 1 then seq(num, _ => 0.0)
    else seq(num, i requires 0 <= i < num => if i == num - 1 then T else i as real * (T / (num - 1) as real))
  }

  /** The grid starts at 0, ends at `T`, and consecutive points are
      `T / (num - 1)` apart. */
  lemma LinspaceShape(T: real, num: nat)
    ensures num >= 1 ==> Linspace(T, num)[0] == 0.0
    ensures num >= 2 ==> Linspace(T, num)[num - 1] == T
    ensures num >= 2 ==> forall i :: 0 <= i < num - 1 ==>
      Linspace(T, num)[i + 1] == Linspace(T, num)[i] + T / (num - 1) as real
  {
    if num >= 2 {
      var ts := Linspace(T, num);
      var step := T / (num - 1) as real;
      forall i | 0 <= i < num - 1 ensures ts[i + 1] == ts[i] + step {
        if i + 1 == num - 1 {
          LastStep(T, num - 1);
        }
        assert (i + 1) as real * step == i as real * step + step;
      }
    }
  }

  lemma LastStep(T: real, m: nat)
    requires m >= 1
    ensures (m - 1) as real * (T / m as real) + T / m as real == T
  {
    var step := T / m as real;
    assert (m - 1) as real * step + step == m as real * step;
    assert m as real * step == T;
  }

  /** For a non-negative horizon the grid lies in `[0, T]`. */
  lemma LinspaceBounds(T: real, num: nat)
    requires T >= 0.0
    ensures forall i :: 0 <= i < num ==> 0.0 <= Linspace(T, num)[i] <= T
  {
    if num >= 2 {
      var ts := Linspace(T, num);
      var m := num - 1;
      var step := T / m as real;
      assert step >= 0.0;
      forall i | 0 <= i < num ensures 0.0 <= ts[i] <= T {
        if i < m {
          assert ts[i] == i as real * step;
          ScaleBelow(i, m, step);
          LastStep(T, m);
        }
      }
    }
  }

  lemma ScaleBelow(i: nat, m: nat, step: real)
    requires i < m && step >= 0.0
    ensures 0.0 <= i as real * step <= (m - 1) as real * step
  {
    assert (m - 1 - i) as real * step >= 0.0;
  }

  // ---------------------------------------------------------------------
  // np.argmax

  /** The first index of a maximum of a non-empty sequence. */
  function ArgMax(s: seq<real>): (k: nat)
    requires |s| > 0
    ensures k < |s|
    ensures forall i :: 0 <= i < |s| ==> s[i] <= s[k]
    ensures forall i :: 0 <= i < k ==> s[i] < s[k]
  {
    if |s| == 1 then 0
    else
      var k := ArgMax(s[..|s| - 1]);
      assert forall i :: 0 <= i < |s| - 1 ==> s[..|s| - 1][i] == s[i];
      if s[|s| - 1] > s[k] then |s| - 1 else k
  }

  // ---------------------------------------------------------------------
  // search_continuous_walk

  /** `np.argmax` of an empty array raises. */
  datatype SearchError = EmptyTimeGrid

  datatype SearchResult = SearchResult(optimalTime: real, maxProbability: real, times: seq<real>, successProbs: seq<real>)

  /** The success probability at each grid time, from an evolution
      `evolve(H, w, t)` that stands for `|(exp(-iHt) psi_0)[w]|^2`. */
  function SuccessProbs(h: Matrix, w: nat, times: seq<real>, evolve: (Matrix, nat, real) -> real): (ps: seq<real>)
    ensures |ps| == |times|
  {
    seq(|times|, i requires 0 <= i < |times| => evolve(h, w, times[i]))
  }

  /** The coupling actually used: `1/n` when none is given. */
  function Coupling(n: nat, gamma: Option<real>): (c: real)
    requires gamma.Some? || n > 0
    ensures gamma.Some? ==> c == gamma.value
    ensures gamma.None? ==> c * (n as real) == 1.0
  {
    if gamma.Some? then gamma.value else 1.0 / n as real
  }

  /** What one search returns, with `defaultTime` standing for the
      irrational default horizon `pi/2 * sqrt n`. */
  function SearchSpec(A: Matrix, w: nat, gamma: Option<real>, time: Option<real>, nTimeSteps: nat,
                      defaultTime: real, evolve: (Matrix, nat, real) -> real): Result<SearchResult, SearchError>
    requires IsSquare(A, |A|) && w < |A|
  {
    var T := if time.Some? then time.value else defaultTime;
    var times := Linspace(T, nTimeSteps);
    var probs := SuccessProbs(BuildSearchHamiltonian(A, w, Coupling(|A|, gamma)), w, times, evolve);
    if nTimeSteps == 0 then Failure(EmptyTimeGrid)
    else
      var k := ArgMax(probs);
      Success(SearchResult(times[k], probs[k], times, probs))
  }

  method SearchContinuousWalk(A: Matrix, w: nat, gamma: Option<real> := None, time: Option<real> := None,
                              nTimeSteps: nat := 200, defaultTime: real, evolve: (Matrix, nat, real) -> real)
    returns (r: Result<SearchResult, SearchError>)
    requires IsSquare(A, |A|) && w < |A|
    ensures r == SearchSpec(A, w, gamma, time, nTimeSteps, defaultTime, evolve)
  {
    var n := |A|;
    var g := if gamma.None? then 1.0 / n as real else gamma.value;
    var T := if time.None? then defaultTime else time.value;
    var times := Linspace(T, nTimeSteps);
    var h := BuildSearchHamiltonian(A, w, g);
    var successProbs := new real[|times|](_ => 0.0);
    for i := 0 to |times|
      invariant forall j :: 0 <= j < i ==> successProbs[j] == evolve(h, w, times[j])
    {
      successProbs[i] := evolve(h, w, times[i]);
    }
    assert successProbs[..] == SuccessProbs(h, w, times, evolve);
    if |times| == 0 {
      return Failure(EmptyTimeGrid);
    }
    var optimal := ArgMax(successProbs[..]);
    r := Success(SearchResult(times[optimal], successProbs[optimal], times, successProbs[..]));
  }

  /** A search fails exactly on an empty grid. Otherwise it reports the
      first grid time of greatest success probability, that probability is
      at least every other one, and entry `i` of the sweep is the evolution
      to grid time `i` under the Hamiltonian with the default coupling `1/n`
      when none is given. */
  lemma SearchOutcome(A: Matrix, w: nat, gamma: Option<real>, time: Option<real>, nTimeSteps: nat,
                      defaultTime: real, evolve: (Matrix, nat, real) -> real)
    requires IsSquare(A, |A|) && w < |A|
    ensures var r := SearchSpec(A, w, gamma, time, nTimeSteps, defaultTime, evolve);
      && (r.Failure? <==> nTimeSteps == 0)
      && (r.Success? ==>
            var res := r.value;
            var T := if time.Some? then time.value else defaultTime;
            var h := BuildSearchHamiltonian(A, w, if gamma.Some? then gamma.value else 1.0 / |A| as real);
            && res.times == Linspace(T, nTimeSteps)
            && |res.successProbs| == nTimeSteps
            && (forall i :: 0 <= i < nTimeSteps ==> res.successProbs[i] == evolve(h, w, res.times[i]))
            && (forall i :: 0 <= i < nTimeSteps ==> res.successProbs[i] <= res.maxProbability)
            && (exists k :: 0 <= k < nTimeSteps
                  && res.optimalTime == res.times[k] && res.maxProbability == res.successProbs[k]
                  && forall i :: 0 <= i < k ==> res.successProbs[i] < res.maxProbability))
  {
    var r := SearchSpec(A, w, gamma, time, nTimeSteps, defaultTime, evolve);
    if r.Success? {
      var k := ArgMax(r.value.successProbs);
      assert 0 <= k < nTimeSteps && r.value.optimalTime == r.value.times[k];
    }
  }

  // ---------------------------------------------------------------------
  // benchmark_search

  datatype Benchmark = Benchmark(nNodes: seq<nat>, optimalTimes: seq<real>, maxProbs: seq<real>)

  /** Every requested size yields a square adjacency matrix that has the
      marked vertex. */
  predicate BuildsValidGraphs(builder: nat -> Matrix, nodeCounts: seq<nat>, w: nat) {
    forall i :: 0 <= i < |nodeCounts| ==>
      IsSquare(builder(nodeCounts[i]), |builder(nodeCounts[i])|) && w < |builder(nodeCounts[i])|
  }

  /** Runs one search per size with the default coupling and horizon;
      `horizon(n)` stands for `pi/2 * sqrt n`. */
  method BenchmarkSearch(builder: nat -> Matrix, nodeCounts: seq<nat>, w: nat := 0, nTimeSteps: nat := 200,
                         horizon: nat -> real, evolve: (Matrix, nat, real) -> real)
    returns (r: Result<Benchmark, SearchError>)
    requires BuildsValidGraphs(builder, nodeCounts, w)
    ensures r.Failure? <==> (|nodeCounts| > 0 && nTimeSteps == 0)
    ensures r.Success? ==>
      && r.value.nNodes == nodeCounts
      && |r.value.optimalTimes| == |nodeCounts| && |r.value.maxProbs| == |nodeCounts|
      && forall i :: 0 <= i < |nodeCounts| ==>
           var A := builder(nodeCounts[i]);
           var s := SearchSpec(A, w, None, None, nTimeSteps, horizon(|A|), evolve);
           && s.Success?
           && r.value.optimalTimes[i] == s.value.optimalTime
           && r.value.maxProbs[i] == s.value.maxProbability
  {
    var optimalTimes: seq<real> := [];
    var maxProbs: seq<real> := [];
    for i := 0 to |nodeCounts|
      invariant |optimalTimes| == i && |maxProbs| == i
      invariant i > 0 ==> nTimeSteps > 0
      invariant forall j :: 0 <= j < i ==>
        var A := builder(nodeCounts[j]);
        var s := SearchSpec(A, w, None, None, nTimeSteps, horizon(|A|), evolve);
        && s.Success?
        && optimalTimes[j] == s.value.optimalTime
        && maxProbs[j] == s.value.maxProbability
    {
      var A := builder(nodeCounts[i]);
      var result := SearchContinuousWalk(A, w, None, None, nTimeSteps, horizon(|A|), evolve);
      if result.Failure? {
        return Failure(result.error);
      }
      optimalTimes := optimalTimes + [result.value.optimalTime];
      maxProbs := maxProbs + [result.value.maxProbability];
    }
    r := Success(Benchmark(nodeCounts, optimalTimes, maxProbs));
  }
}
