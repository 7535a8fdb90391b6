/** Monte Carlo estimate of the classical random-walk hitting time
    (classical_hitting_time in src/graph_utils.py). The graph is a neighbour
    map and the random generator a function from (draw number, range size)
    to a draw. */
module HittingTime {
  import opened Wrappers

  /** `graph.neighbors` of a node outside the graph raises; `randint(0)` on a
      node without neighbours raises; dividing by zero trials raises. */
  datatype HitError = NodeNotInGraph | NoNeighbours | ZeroTrials

  /** One finished trial: its step count, the next unused draw, and the
      nodes it visited in order. */
  datatype TrialRun<Node> = TrialRun(steps: nat, draws: nat, path: seq<Node>)

  /** `choice(k, m)` is the `k`-th draw of `randint(m)`, which lies in `[0, m)`. */
  ghost predicate DrawsInRange(choice: (nat, nat) -> nat) {
    forall k: nat, m: nat :: 0 < m ==> choice(k, m) < m
  }

  /** The step cap `10 * N^2` of a graph with `n` nodes. */
  function Cap(n: nat): nat {
    10 * n * n
  }

  /** The rest of one trial from `current`, `steps` steps and `draw` draws in,
      having visited `visited` before `current`. */
  function Trial<Node(==)>(adj: map<Node, seq<Node>>, target: Node, current: Node, steps: nat, draw: nat,
                           visited: seq<Node>, cap: nat, choice: (nat, nat) -> nat): Result<TrialRun<Node>, HitError>
    requires steps <= cap && DrawsInRange(choice)
    decreases cap - steps
  {
    if current == target then Success(TrialRun(steps, draw, visited + [current]))
    else if current !in adj then Failure(NodeNotInGraph)
    else if |adj[current]| == 0 then Failure(NoNeighbours)
    else
      var next := adj[current][choice(draw, |adj[current]|)];
      if steps + 1 > cap then Success(TrialRun(steps + 1, draw + 1, visited + [current, next]))
      else Trial(adj, target, next, steps + 1, draw + 1, visited + [current], cap, choice)
  }

  /** Adds the steps of earlier trials to the outcome of the later ones. */
  function AddSteps(total: nat, r: Result<(nat, nat), HitError>): Result<(nat, nat), HitError> {
    match r
    case Failure(e) => Failure(e)
    case Success((t, d)) => Success((total + t, d))
  }

  /** `n` trials from `start`, the first using draw number `draw`: the total
      step count and the next unused draw. */
  function Trials<Node(==)>(adj: map<Node, seq<Node>>, start: Node, target: Node, n: nat, draw: nat,
                            choice: (nat, nat) -> nat): Result<(nat, nat), HitError>
    requires DrawsInRange(choice)
    decreases n
  {
    if n == 0 then Success((0, draw))
    else
      match Trial(adj, target, start, 0, draw, [], Cap(|adj|), choice)
      case Failure(e) => Failure(e)
      case Success(run) => AddSteps(run.steps, Trials(adj, start, target, n - 1, run.draws, choice))
  }

  /** The estimate: the mean step count over `nTrials` trials. */
  function HittingTimeSpec<Node(==)>(adj: map<Node, seq<Node>>, start: Node, target: Node, nTrials: nat,
                                     choice: (nat, nat) -> nat): Result<real, HitError>
    requires DrawsInRange(choice)
  {
    match Trials(adj, start, target, nTrials, 0, choice)
    case Failure(e) => Failure(e)
    case Success((total, _)) => if nTrials == 0 then Failure(ZeroTrials) else Success(total as real / nTrials as real)
  }

  method ClassicalHittingTime<Node(==)>(adj: map<Node, seq<Node>>, start: Node, target: Node, nTrials: nat := 10000,
                                        choice: (nat, nat) -> nat) returns (r: Result<real, HitError>)
    requires DrawsInRange(choice)
    ensures r == HittingTimeSpec(adj, start, target, nTrials, choice)
  {
    var cap := 10 * |adj| * |adj|;
    var totalSteps := 0;
    var draw := 0;
    for trial := 0 to nTrials
      invariant Trials(adj, start, target, nTrials, 0, choice)
             == AddSteps(totalSteps, Trials(adj, start, target, nTrials - trial, draw, choice))
    {
      ghost var trialDraw := draw;
      var current := start;
      var steps := 0;
      ghost var visited: seq<Node> := [];
      while current != target
        invariant steps <= cap
        invariant Trial(adj, target, start, 0, trialDraw, [], cap, choice)
               == Trial(adj, target, current, steps, draw, visited, cap, choice)
        decreases cap - steps
      {
        if current !in adj {
          return Failure(NodeNotInGraph);
        }
        var neighbors := adj[current];
        if |neighbors| == 0 {
          return Failure(NoNeighbours);
        }
        visited := visited + [current];
        current := neighbors[choice(draw, |neighbors|)];
        draw := draw + 1;
        steps := steps + 1;
        if steps > cap {
          break;
        }
      }
      totalSteps := totalSteps + steps;
    }
    if nTrials == 0 {
      return Failure(ZeroTrials);
    }
    r := Success(totalSteps as real / nTrials as real);
  }

  // ---------------------------------------------------------------------
  // Properties of one trial

  /** A finished trial took between `steps` and `cap + 1` steps, one draw per
      step; it stopped at the target or right after exceeding the cap, and
      not earlier; and each node it moved to is a neighbour of the one before. */
  lemma {:induction false} TrialShape<Node>(adj: map<Node, seq<Node>>, target: Node, current: Node, steps: nat, draw: nat,
                                                visited: seq<Node>, cap: nat, choice: (nat, nat) -> nat)
    requires steps <= cap && DrawsInRange(choice)
    ensures var r := Trial(adj, target, current, steps, draw, visited, cap, choice);
      r.Success? ==>
        var run := r.value;
        && steps <= run.steps <= cap + 1
        && run.draws == draw + (run.steps - steps)
        && |run.path| == |visited| + (run.steps - steps) + 1
        && run.path[..|visited|] == visited
        && run.path[|visited|] == current
        && (run.path[|run.path| - 1] == target || run.steps == cap + 1)
        && (forall i :: |visited| <= i < |run.path| - 1 ==> run.path[i] != target)
        && (forall i :: |visited| <= i < |run.path| - 1 ==> run.path[i] in adj && run.path[i + 1] in adj[run.path[i]])
    decreases cap - steps
  {
    var r := Trial(adj, target, current, steps, draw, visited, cap, choice);
    if r.Success? && current != target {
      var next := adj[current][choice(draw, |adj[current]|)];
      var run := r.value;
      if steps + 1 > cap {
        assert run.path == visited + [current, next];
      } else {
        var visited' := visited + [current];
        TrialShape(adj, target, next, steps + 1, draw + 1, visited', cap, choice);
        assert run.path[..|visited'|] == visited';
        assert run.path[..|visited|] == visited' [..|visited|];
        forall i | |visited| <= i < |run.path| - 1
          ensures run.path[i] != target
          ensures run.path[i] in adj && run.path[i + 1] in adj[run.path[i]]
        {
          if i == |visited| {
            assert run.path[i] == visited'[i] == current;
            assert run.path[i + 1] == next;
          }
        }
      }
    }
  }

  /** The same for a whole trial from `start`: its path has one more node
      than it took steps, starts at `start`, and at most `10 N^2 + 1` steps
      are taken. */
  lemma TrialFromStart<Node>(adj: map<Node, seq<Node>>, start: Node, target: Node, draw: nat, choice: (nat, nat) -> nat)
    requires DrawsInRange(choice)
    ensures var r := Trial(adj, target, start, 0, draw, [], Cap(|adj|), choice);
      r.Success? ==>
        var run := r.value;
        && run.steps <= Cap(|adj|) + 1
        && |run.path| == run.steps + 1 && run.path[0] == start
        && (run.path[run.steps] == target || run.steps == Cap(|adj|) + 1)
        && (forall i :: 0 <= i < run.steps ==> run.path[i] != target)
        && (forall i :: 0 <= i < run.steps ==> run.path[i] in adj && run.path[i + 1] in adj[run.path[i]])
  {
    TrialShape(adj, target, start, 0, draw, [], Cap(|adj|), choice);
  }

  /** Every neighbour of a node is a node. */
  predicate Closed<Node(==)>(adj: map<Node, seq<Node>>) {
    forall v, i :: v in adj && 0 <= i < |adj[v]| ==> adj[v][i] in adj
  }

  /** In a graph whose neighbour lists name only nodes, a walk from a node
      never leaves the graph; a trial then fails only at a node other than
      the target that has no neighbours. */
  lemma {:induction false} TrialStaysInGraph<Node>(adj: map<Node, seq<Node>>, target: Node, current: Node, steps: nat, draw: nat,
                                                       visited: seq<Node>, cap: nat, choice: (nat, nat) -> nat)
    requires steps <= cap && DrawsInRange(choice) && Closed(adj) && current in adj
    ensures var r := Trial(adj, target, current, steps, draw, visited, cap, choice);
      r.Failure? ==> r.error == NoNeighbours
    decreases cap - steps
  {
    if current != target && |adj[current]| > 0 && steps + 1 <= cap {
      var next := adj[current][choice(draw, |adj[current]|)];
      TrialStaysInGraph(adj, target, next, steps + 1, draw + 1, visited + [current], cap, choice);
    }
  }

  /** A trial never fails with `ZeroTrials`. */
  lemma {:induction false} TrialErrorIsLookup<Node>(adj: map<Node, seq<Node>>, target: Node, current: Node, steps: nat, draw: nat,
                                                        visited: seq<Node>, cap: nat, choice: (nat, nat) -> nat)
    requires steps <= cap && DrawsInRange(choice)
    ensures var r := Trial(adj, target, current, steps, draw, visited, cap, choice);
      r.Failure? ==> r.error != ZeroTrials
    decreases cap - steps
  {
    if current != target && current in adj && |adj[current]| > 0 && steps + 1 <= cap {
      var next := adj[current][choice(draw, |adj[current]|)];
      TrialErrorIsLookup(adj, target, next, steps + 1, draw + 1, visited + [current], cap, choice);
    }
  }

  // ---------------------------------------------------------------------
  // Properties of the estimate

  /** `n` trials take at most `n (10 N^2 + 1)` steps in total, and raise only
      the errors of a single trial. */
  lemma {:induction false} TrialsBound<Node>(adj: map<Node, seq<Node>>, start: Node, target: Node, n: nat, draw: nat,
                                                 choice: (nat, nat) -> nat)
    requires DrawsInRange(choice)
    ensures var r := Trials(adj, start, target, n, draw, choice);
      && (r.Success? ==> r.value.0 <= n * (Cap(|adj|) + 1))
      && (r.Failure? ==> r.error != ZeroTrials)
    decreases n
  {
    if n > 0 {
      var t := Trial(adj, target, start, 0, draw, [], Cap(|adj|), choice);
      TrialShape(adj, target, start, 0, draw, [], Cap(|adj|), choice);
      TrialErrorIsLookup(adj, target, start, 0, draw, [], Cap(|adj|), choice);
      if t.Success? {
        TrialsBound(adj, start, target, n - 1, t.value.draws, choice);
        assert n * (Cap(|adj|) + 1) == (n - 1) * (Cap(|adj|) + 1) + (Cap(|adj|) + 1);
      }
    }
  }

  lemma MeanBound(total: nat, n: nat, bound: nat)
    requires n > 0 && total <= n * bound
    ensures 0.0 <= total as real / n as real <= bound as real
  {
    assert total as real <= n as real * bound as real;
  }

  /** The estimate lies in `[0, 10 N^2 + 1]`, and it is an error exactly when
      there are no trials. */
  lemma HittingTimeBounds<Node>(adj: map<Node, seq<Node>>, start: Node, target: Node, nTrials: nat,
                                    choice: (nat, nat) -> nat)
    requires DrawsInRange(choice)
    ensures var r := HittingTimeSpec(adj, start, target, nTrials, choice);
      && (r.Success? ==> 0.0 <= r.value <= (Cap(|adj|) + 1) as real)
      && (r == Failure(ZeroTrials) <==> nTrials == 0)
  {
    TrialsBound(adj, start, target, nTrials, 0, choice);
    var t := Trials(adj, start, target, nTrials, 0, choice);
    if t.Success? && nTrials > 0 {
      MeanBound(t.value.0, nTrials, Cap(|adj|) + 1);
    }
  }

  /** Starting at the target every trial takes 0 steps and draws nothing. */
  lemma {:induction false} TrialsAtTarget<Node>(adj: map<Node, seq<Node>>, target: Node, n: nat, draw: nat,
                                                    choice: (nat, nat) -> nat)
    requires DrawsInRange(choice)
    ensures Trials(adj, target, target, n, draw, choice) == Success((0, draw))
    decreases n
  {
    if n > 0 {
      TrialsAtTarget(adj, target, n - 1, draw, choice);
    }
  }

  /** When `start == target` the estimate is 0, whatever the graph. */
  lemma HittingTimeAtTarget<Node>(adj: map<Node, seq<Node>>, target: Node, nTrials: nat, choice: (nat, nat) -> nat)
    requires DrawsInRange(choice) && nTrials > 0
    ensures HittingTimeSpec(adj, target, target, nTrials, choice) == Success(0.0)
  {
    TrialsAtTarget(adj, target, nTrials, 0, choice);
  }
}
