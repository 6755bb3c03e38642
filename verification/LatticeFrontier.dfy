/** What the search loop keeps, and what follows when it stops. */
module LatticeFrontier {
  import opened Common
  import opened Sorting
  import opened DecisionLattice

  /** Rounding makes every step's contribution additive. */
  lemma AddIsAdditive(acc: int, x: real)
    ensures Add(acc, x) == acc + Round(x)
  {
    assert (acc as real / 1000.0 + x) * 1000.0 + 0.5 == acc as real + (x * 1000.0 + 0.5);
  }

  lemma TotalCostIsSum(g: int, h: int, risk: int, friction: int, infoGain: int)
    ensures TotalCost(g, h, risk, friction, infoGain) == g + h + risk + friction - infoGain
  {
    AddIsAdditive(g + h + risk + friction - infoGain, 0.0);
  }

  /** The heuristic vanishes exactly at goal states once a unit of debt rounds to something. */
  lemma ProofDebtZero(p: Problem, s: Vec)
    requires p.weights.proofDebt >= 0.0005
    ensures ProofDebt(p, s) == 0 <==> IsGoal(s, p.goal)
  {
    var d := Debt(s, p.goal);
    if d > 0 {
      assert d as real * p.weights.proofDebt >= 1.0 * p.weights.proofDebt;
    }
  }

  // ---- walking the lattice ----

  ghost predicate AtMost(s: Vec, goal: Vec) { IsGoal(goal, s) }

  lemma ApplyPaysDebt(s: Vec, delta: Vec, goal: Vec)
    ensures AtMost(Apply(s, delta, goal), goal)
    ensures Debt(Apply(s, delta, goal), goal) <= Debt(s, goal)
    ensures AtMost(s, goal) && Apply(s, delta, goal) != s ==> Debt(Apply(s, delta, goal), goal) < Debt(s, goal)
  {
    hide Apply, AxisDebt;
    AxisPays(s, delta, goal, Contract);
    AxisPays(s, delta, goal, Context);
    AxisPays(s, delta, goal, Implementation);
    AxisPays(s, delta, goal, Verification);
    AxisPays(s, delta, goal, Review);
    var t := Apply(s, delta, goal);
    assert t != s ==> exists axis: Axis :: t.At(axis) != s.At(axis) by {
      if forall axis: Axis :: t.At(axis) == s.At(axis) { SameOnAllAxes(s, t); }
    }
  }

  lemma SameOnAllAxes(s: Vec, t: Vec)
    requires forall axis: Axis :: t.At(axis) == s.At(axis)
    ensures s == t
  {
    assert s.At(Contract) == t.At(Contract) && s.At(Context) == t.At(Context) && s.At(Implementation) == t.At(Implementation);
    assert s.At(Verification) == t.At(Verification) && s.At(Review) == t.At(Review);
  }

  lemma AxisPays(s: Vec, delta: Vec, goal: Vec, axis: Axis)
    ensures var t := Apply(s, delta, goal);
            t.At(axis) <= goal.At(axis) && AxisDebt(t, goal, axis) <= AxisDebt(s, goal, axis) &&
            (s.At(axis) <= goal.At(axis) && t.At(axis) != s.At(axis) ==> AxisDebt(t, goal, axis) < AxisDebt(s, goal, axis))
  {
  }

  /** A node whose path never returns to a state: each step after the first pays some debt. */
  ghost predicate Frugal(p: Problem, n: Node) {
    && n.state == (if n.steps == [] then p.start else n.steps[|n.steps| - 1].stateAfter)
    && (forall i | 0 <= i < |n.steps| :: AtMost(n.steps[i].stateAfter, p.goal))
    && (forall i, j | 0 <= i < j < |n.steps| ::
          Debt(n.steps[j].stateAfter, p.goal) < Debt(n.steps[i].stateAfter, p.goal))
    && (AtMost(p.start, p.goal) ==>
          forall i | 0 <= i < |n.steps| :: Debt(n.steps[i].stateAfter, p.goal) < Debt(p.start, p.goal))
    && |n.steps| + Debt(n.state, p.goal) <= Debt(p.start, p.goal) + (if AtMost(p.start, p.goal) then 0 else 1)
  }

  lemma SuccessorIsFrugal(p: Problem, n: Node, a: Action)
    requires Frugal(p, n) && Successor(p, n, a).state != n.state
    ensures Frugal(p, Successor(p, n, a))
  {
    hide Add, Round, ProofDebt, TotalCost, Weighted;
    ApplyPaysDebt(n.state, a.delta, p.goal);
  }

  /** States on a frontier path are pairwise distinct, and the path is short. */
  lemma FrugalPath(p: Problem, n: Node)
    requires Frugal(p, n)
    ensures forall i, j | 0 <= i < j < |n.steps| :: n.steps[i].stateAfter != n.steps[j].stateAfter
    ensures forall i | 0 <= i < |n.steps| :: n.steps[i].stateAfter != p.start
    ensures |n.steps| <= Debt(p.start, p.goal) + 1
  {
    hide Debt;
  }

  ghost predicate Uses(p: Problem, acts: seq<Action>) { forall a | a in acts :: a in p.actions }

  ghost predicate Traced(p: Problem, n: Node, acts: seq<Action>) { Uses(p, acts) && n == Walk(p, acts) }

  ghost predicate Replays(p: Problem, n: Node) { exists acts :: Traced(p, n, acts) }

  lemma SuccessorReplays(p: Problem, n: Node, a: Action)
    requires Replays(p, n) && a in p.actions
    ensures Replays(p, Successor(p, n, a))
  {
    hide Successor;
    var acts :| Traced(p, n, acts);
    WalkExtends(p, acts, a);
    assert Traced(p, Successor(p, n, a), acts + [a]);
  }

  function StepCost(p: Problem): int { Round(p.weights.step) }

  lemma SuccessorCost(p: Problem, n: Node, a: Action)
    ensures Successor(p, n, a).g == n.g + StepCost(p)
    ensures Successor(p, n, a).state == Apply(n.state, a.delta, p.goal)
  {
    AddIsAdditive(n.g, p.weights.step);
  }

  lemma StepCostNotNegative(p: Problem)
    requires p.weights.step > 0.0
    ensures StepCost(p) >= 0
  {
  }

  // ---- the loop invariant ----

  predicate Covered(best: map<Vec, int>, n: Node) { n.state in best && best[n.state] <= n.g }

  predicate Listed(f: Frontier, n: Node) { n in f.open || n in f.closed }

  ghost predicate Held(f: Frontier, s: Vec)
    requires s in f.best
  {
    exists n :: Listed(f, n) && n.state == s && n.g == f.best[s]
  }

  /** Every node ever pushed replays, is frugal and is covered by `best`; every entry of `best`
      belongs to a node; a state never has two nodes of the same cost. */
  ghost predicate Accounted(p: Problem, f: Frontier) {
    && (forall n | Listed(f, n) :: Replays(p, n) && Frugal(p, n) && Covered(f.best, n))
    && (forall s | s in f.best :: Held(f, s))
    && (forall n, m | Listed(f, n) && Listed(f, m) && n.state == m.state && n.g == m.g :: n == m)
  }

  /** The first k successors of n are covered. */
  ghost predicate Settled(p: Problem, best: map<Vec, int>, n: Node, k: nat)
    requires k <= |p.actions|
  {
    forall j | 0 <= j < k :: Covered(best, Successor(p, n, p.actions[j]))
  }

  ghost predicate Lowered(before: map<Vec, int>, after: map<Vec, int>) {
    forall s | s in before :: s in after && after[s] <= before[s]
  }

  ghost predicate Invariant(p: Problem, f: Frontier) {
    && Accounted(p, f)
    && (f.found.None? ==> forall n | n in f.closed :: !IsGoal(n.state, p.goal) && Settled(p, f.best, n, |p.actions|))
    && (f.found.Some? ==> f.found.value in f.closed && IsGoal(f.found.value.state, p.goal))
    && Listed(f, StartNode(p))
  }

  lemma RelaxKeeps(p: Problem, current: Node, a: Action, f: Frontier)
    requires p.weights.step > 0.0 && a in p.actions && Listed(f, current) && Accounted(p, f)
    ensures var r := Relax(p, current, a, f);
            && Accounted(p, r) && Lowered(f.best, r.best) && Covered(r.best, Successor(p, current, a))
            && (forall n | Listed(f, n) :: Listed(r, n))
  {
    hide Successor, Replays, Frugal;
    var next := Successor(p, current, a);
    var r := Relax(p, current, a, f);
    SuccessorCost(p, current, a);
    StepCostNotNegative(p);
    if !Covered(f.best, next) {
      SuccessorIsFrugal(p, current, a);
      SuccessorReplays(p, current, a);
      assert next in r.open;
      assert forall n :: Listed(r, n) <==> Listed(f, n) || n == next;
      forall s | s in r.best ensures Held(r, s) {
        if s == next.state {
          assert Listed(r, next);
        } else {
          assert Held(f, s);
          var n :| Listed(f, n) && n.state == s && n.g == f.best[s];
          assert Listed(r, n);
        }
      }
    }
  }

  lemma {:induction false} RelaxFromKeeps(p: Problem, current: Node, k: nat, f: Frontier)
    requires p.weights.step > 0.0 && k <= |p.actions| && Listed(f, current) && Accounted(p, f)
    requires Settled(p, f.best, current, k)
    ensures var r := RelaxFrom(p, current, k, f);
            && Accounted(p, r) && Lowered(f.best, r.best) && Settled(p, r.best, current, |p.actions|)
            && (forall n | Listed(f, n) :: Listed(r, n))
    decreases |p.actions| - k
  {
    hide Relax, Accounted;
    if k < |p.actions| {
      RelaxKeeps(p, current, p.actions[k], f);
      RelaxFromKeeps(p, current, k + 1, Relax(p, current, p.actions[k], f));
    }
  }

  /** Each push creates or strictly lowers the entry of its state. */
  lemma PushLowersBest(p: Problem, current: Node, a: Action, f: Frontier)
    ensures var r := Relax(p, current, a, f);
            r.open != f.open ==>
              && |r.open| == |f.open| + 1
              && var s := r.open[|f.open|].state;
                 (s in r.best && (s in f.best ==> r.best[s] < f.best[s]) && r.best == f.best[s := r.best[s]])
  {
    hide Successor;
  }

  lemma PopKeeps(p: Problem, f: Frontier)
    requires f.open != [] && Accounted(p, f)
    ensures Accounted(p, Pop(f)) && Listed(Pop(f), Current(Pop(f)))
    ensures Pop(f).best == f.best && Pop(f).found == f.found
    ensures forall n :: Listed(Pop(f), n) <==> Listed(f, n)
  {
    hide Replays, Frugal, Covered, NodeLe, Keys;
    SortMembers(f.open, NodeLe);
    var sorted := SortBy(f.open, NodeLe);
    assert sorted == [sorted[0]] + sorted[1..];
    assert forall n :: Listed(Pop(f), n) <==> Listed(f, n);
    forall s | s in f.best ensures Held(Pop(f), s) {
      assert Held(f, s);
      var n :| Listed(f, n) && n.state == s && n.g == f.best[s];
      assert Listed(Pop(f), n);
    }
  }

  lemma PopCloses(f: Frontier)
    requires f.open != []
    ensures Pop(f).closed == f.closed + [Current(Pop(f))]
  {
  }

  lemma LoweredSettles(p: Problem, before: map<Vec, int>, after: map<Vec, int>, n: Node)
    requires Lowered(before, after) && Settled(p, before, n, |p.actions|)
    ensures Settled(p, after, n, |p.actions|)
  {
    hide Successor;
  }

  lemma ExpandKeeps(p: Problem, f: Frontier)
    requires p.weights.step > 0.0 && Running(f)
    ensures Invariant(p, f) ==> Invariant(p, Expand(p, f))
  {
    hide Relax, IsGoal, RelaxFrom, Successor, Replays, Frugal, Covered, Pop;
    if Invariant(p, f) {
      var popped := Pop(f);
      var current := Current(popped);
      PopKeeps(p, f);
      if IsGoal(current.state, p.goal) {
        var r := popped.(found := Some(current));
        assert forall n :: Listed(r, n) <==> Listed(popped, n);
        forall s | s in r.best ensures Held(r, s) {
          assert Held(popped, s);
        }
      } else {
        hide Accounted;
        RelaxFromKeeps(p, current, 0, popped);
        RelaxFromKeepsLists(p, current, 0, popped);
        var r := Expand(p, f);
        assert r.closed == f.closed + [current] by { PopCloses(f); }
        forall n | n in r.closed ensures !IsGoal(n.state, p.goal) && Settled(p, r.best, n, |p.actions|) {
          if n in f.closed {
            assert Settled(p, f.best, n, |p.actions|);
            LoweredSettles(p, f.best, r.best, n);
          }
        }
      }
    }
  }

  lemma InitInvariant(p: Problem)
    ensures Invariant(p, Init(p))
  {
    hide ProofDebt, TotalCost;
    var f := Init(p);
    assert Traced(p, StartNode(p), []);
    assert Listed(f, StartNode(p));
    assert forall n :: Listed(f, n) <==> n == StartNode(p);
  }

  /** The invariant holds when the loop stops, and the loop stops for one of its three reasons. */
  lemma {:induction false} RunKeeps(p: Problem, f: Frontier)
    requires p.weights.step > 0.0 && Invariant(p, f)
    ensures Invariant(p, Run(p, f)) && !Running(Run(p, f))
    decreases EXPANSION_CAP - |f.closed|
  {
    hide Invariant, Expand;
    if Running(f) {
      ExpandKeeps(p, f);
      ExpandGrowsClosed(p, f);
      RunKeeps(p, Expand(p, f));
    }
  }

  // ---- what the search establishes ----

  function Final(p: Problem): Frontier { Run(p, Init(p)) }

  /** Nodes never leave the open and closed lists, so this covers every node ever pushed: it is the
      outcome of taking some actions from the start, it repeats no state, and it is at most one
      step longer than the starting debt. */
  lemma EveryNodeReplays(p: Problem, n: Node)
    requires p.weights.step > 0.0 && Listed(Final(p), n)
    ensures exists acts :: Uses(p, acts) && n == Walk(p, acts)
    ensures forall i, j | 0 <= i < j < |n.steps| :: n.steps[i].stateAfter != n.steps[j].stateAfter
    ensures forall i | 0 <= i < |n.steps| :: n.steps[i].stateAfter != p.start
    ensures |n.steps| <= Debt(p.start, p.goal) + 1
  {
    hide Run, Successor, Debt, Covered;
    InitInvariant(p);
    RunKeeps(p, Init(p));
    assert Replays(p, n) && Frugal(p, n);
    FrugalPath(p, n);
    var acts :| Traced(p, n, acts);
    assert Uses(p, acts) && n == Walk(p, acts);
  }

  lemma NodeLeIsOrder()
    ensures TotalPreorder(NodeLe)
  {
  }

  /** No two different frontier nodes tie in the comparator. */
  lemma FrontierHasNoTies(p: Problem, f: Frontier, n: Node, m: Node)
    requires Invariant(p, f) && Listed(f, n) && Listed(f, m)
    requires NodeLe(n, m) && NodeLe(m, n)
    ensures n == m
  {
    hide Run, Walk, Successor, Debt, Covered, Frugal;
    var a :| Traced(p, n, a);
    var b :| Traced(p, m, b);
    WalkTotals(p, a);
    WalkTotals(p, b);
  }

  /** The open list has one sorted order: the search does not depend on how the sort treats ties. It is stated for
      every frontier that keeps the invariant, and so for each turn of the loop. */
  lemma SortedOpenIsUnique(p: Problem, f: Frontier, sorted: seq<Node>)
    requires Invariant(p, f) && multiset(sorted) == multiset(f.open) && Sorted(sorted, NodeLe)
    ensures sorted == SortBy(f.open, NodeLe)
  {
    hide Invariant, NodeLe;
    NodeLeIsOrder();
    assert forall n :: n in sorted <==> multiset(sorted)[n] > 0;
    forall n, m | n in sorted && m in sorted && NodeLe(n, m) && NodeLe(m, n) ensures n == m {
      assert multiset(f.open)[n] > 0 && multiset(f.open)[m] > 0;
      FrontierHasNoTies(p, f, n, m);
    }
    SortIgnoresOrder(sorted, f.open, NodeLe);
    SortOfSorted(sorted, NodeLe);
  }

  lemma WalkTotals(p: Problem, acts: seq<Action>)
    ensures var n := Walk(p, acts);
            n.h == ProofDebt(p, n.state) && n.f == n.g + n.h + n.risk + n.friction - n.infoGain
  {
    hide Round, Add, ProofDebt;
    WalkIsNode(p, acts);
    var n := Walk(p, acts);
    TotalCostIsSum(n.g, n.h, n.risk, n.friction, n.infoGain);
  }

  lemma SuccessorIsCovered(p: Problem, f: Frontier, w: Node, a: Action)
    requires Invariant(p, f) && f.open == [] && f.found.None? && Covered(f.best, w) && a in p.actions
    ensures Covered(f.best, Successor(p, w, a))
  {
    hide Replays, Frugal, Successor;
    assert Held(f, w.state);
    var n :| Listed(f, n) && n.state == w.state && n.g == f.best[w.state];
    assert n in f.closed && Settled(p, f.best, n, |p.actions|);
    var j :| 0 <= j < |p.actions| && p.actions[j] == a;
    assert Covered(f.best, Successor(p, n, p.actions[j]));
    SuccessorCost(p, n, a);
    SuccessorCost(p, w, a);
  }

  lemma {:induction false} WalkIsCovered(p: Problem, f: Frontier, acts: seq<Action>)
    requires Invariant(p, f) && f.open == [] && f.found.None? && Uses(p, acts)
    ensures Covered(f.best, Walk(p, acts))
  {
    hide Replays, Frugal, Successor, Settled, Covered;
    if acts == [] {
      assert Listed(f, StartNode(p));
    } else {
      WalkIsCovered(p, f, acts[..|acts| - 1]);
      SuccessorIsCovered(p, f, Walk(p, acts[..|acts| - 1]), acts[|acts| - 1]);
    }
  }

  /** When the frontier runs dry, `best` holds exactly the reachable states, each with the least
      step cost of any walk to it. */
  lemma DryFrontierIsExhaustive(p: Problem)
    requires p.weights.step > 0.0
    requires Final(p).open == [] && Final(p).found.None?
    ensures forall acts | Uses(p, acts) ::
              var w := Walk(p, acts);
              w.state in Final(p).best && Final(p).best[w.state] <= w.g && !IsGoal(w.state, p.goal)
    ensures forall s | s in Final(p).best ::
              exists acts :: Uses(p, acts) && Walk(p, acts).state == s && Walk(p, acts).g == Final(p).best[s]
  {
    hide Run, Successor, Frugal;
    var f := Final(p);
    InitInvariant(p);
    RunKeeps(p, Init(p));
    forall acts | Uses(p, acts)
      ensures var w := Walk(p, acts); w.state in f.best && f.best[w.state] <= w.g && !IsGoal(w.state, p.goal)
    {
      WalkIsCovered(p, f, acts);
      var w := Walk(p, acts);
      assert Held(f, w.state);
      var n :| Listed(f, n) && n.state == w.state && n.g == f.best[w.state];
      assert n in f.closed;
    }
    forall s | s in f.best
      ensures exists acts :: Uses(p, acts) && Walk(p, acts).state == s && Walk(p, acts).g == f.best[s]
    {
      assert Held(f, s);
      var n :| Listed(f, n) && n.state == s && n.g == f.best[s];
      assert Replays(p, n);
      var acts :| Traced(p, n, acts);
      assert Uses(p, acts) && Walk(p, acts).state == s && Walk(p, acts).g == f.best[s];
    }
  }

  ghost predicate Reachable(p: Problem) {
    exists acts :: Uses(p, acts) && IsGoal(Walk(p, acts).state, p.goal)
  }

  /** Below the expansion cap, the search stops at a goal exactly when some finite sequence of
      actions reaches the goal. */
  lemma FoundIffReachable(p: Problem)
    requires p.weights.step > 0.0 && |Final(p).closed| < EXPANSION_CAP
    ensures Final(p).found.Some? <==> Reachable(p)
  {
    InitInvariant(p);
    RunKeeps(p, Init(p));
    if Final(p).found.None? {
      DryFrontierIsExhaustive(p);
    } else {
      FoundIsReachable(p);
    }
  }

  /** A goal node is never an artefact of the search, whatever the cap did. */
  lemma FoundIsReachable(p: Problem)
    requires p.weights.step > 0.0 && Final(p).found.Some?
    ensures Reachable(p)
  {
    hide Run, Successor, Debt, Frugal;
    InitInvariant(p);
    RunKeeps(p, Init(p));
    var n := Final(p).found.value;
    assert Listed(Final(p), n) && Replays(p, n);
    var acts :| Traced(p, n, acts);
    assert Uses(p, acts) && IsGoal(Walk(p, acts).state, p.goal);
  }

  /** The A* path's `complete` flag tells whether the goal is reachable, below the cap, except in
      one case: when some axis in debt has no candidate action and the starting debt is so lightly
      weighted that it rounds to nothing, the unreachable goal is reported as complete. */
  lemma CompleteIffReachable(p: Problem)
    requires p.weights.step > 0.0 && |Final(p).closed| < EXPANSION_CAP
    ensures (PathFromNode(Search(p).selected, 0).complete <==> Reachable(p))
            <==> (EveryDebtHasCandidate(p) || ProofDebt(p, p.start) != 0)
  {
    hide Run, Reachable, TotalCost, EveryDebtHasCandidate;
    ReachableIffCandidates(p);
    FoundIffReachable(p);
    if Final(p).found.Some? {
      FoundCost(p);
      assert PathFromNode(Search(p).selected, 0).complete;
    } else {
      assert Search(p).selected == StartNode(p);
    }
  }

  lemma FoundCost(p: Problem)
    requires p.weights.step > 0.0 && Final(p).found.Some?
    ensures Final(p).found.value.h == 0
  {
    hide Run, Successor, Debt, Frugal;
    InitInvariant(p);
    RunKeeps(p, Init(p));
    var n := Final(p).found.value;
    assert Listed(Final(p), n) && Replays(p, n);
    var acts :| Traced(p, n, acts);
    WalkTotals(p, acts);
    GoalHasNoDebt(p, n.state);
  }

  lemma GoalHasNoDebt(p: Problem, s: Vec)
    requires IsGoal(s, p.goal)
    ensures ProofDebt(p, s) == 0
  {
    assert 0 as real * p.weights.proofDebt == 0.0;
  }

  /** With a debt weight of at least half a thousandth a complete path is never a false claim, and
      below the cap the flag is exact. */
  lemma CompleteMeansReachable(p: Problem)
    requires p.weights.step > 0.0 && p.weights.proofDebt >= 0.0005
    ensures PathFromNode(Search(p).selected, 0).complete ==> Reachable(p)
    ensures |Final(p).closed| < EXPANSION_CAP && Reachable(p) ==> PathFromNode(Search(p).selected, 0).complete
  {
    hide Run, Walk, TotalCost, ProofDebt;
    ReachableIffCandidates(p);
    if |Final(p).closed| < EXPANSION_CAP {
      CompleteIffReachable(p);
    }
    if Final(p).found.Some? {
      FoundIsReachable(p);
    } else {
      ProofDebtZero(p, p.start);
      StartWalk(p);
      assert Uses(p, []);
    }
  }

  /** The excepted case happens: one axis in debt, no action, and a weight of a ten-thousandth. */
  lemma LightDebtMisreports()
    ensures var p := Problem(Vec(0, 0, 0, 0, 0), Vec(1, 0, 0, 0, 0), [], Weights(1.0, 0.0001, 1.0, 1.0, 1.0));
            && |Final(p).closed| < EXPANSION_CAP
            && PathFromNode(Search(p).selected, 0).complete && !Reachable(p)
  {
    var p := Problem(Vec(0, 0, 0, 0, 0), Vec(1, 0, 0, 0, 0), [], Weights(1.0, 0.0001, 1.0, 1.0, 1.0));
    var one := Expand(p, Init(p));
    SortMembers(Init(p).open, NodeLe);
    assert one.open == [] && one.found.None? && |one.closed| == 1;
    assert Final(p) == one;
    DryFrontierIsExhaustive(p);
  }

  lemma StartWalk(p: Problem)
    ensures Walk(p, []) == StartNode(p)
  {
  }

  // ---- the conceptual grid predicts the search ----

  /** The `candidate_actions` of a grid cell. */
  ghost predicate HasCandidate(p: Problem, axis: Axis) {
    exists a :: a in p.actions && a.delta.At(axis) > 0
  }

  ghost predicate EveryDebtHasCandidate(p: Problem) {
    forall axis | AxisDebt(p.start, p.goal, axis) > 0 :: HasCandidate(p, axis)
  }

  lemma {:induction false} UnmovedAxis(p: Problem, acts: seq<Action>, axis: Axis)
    requires Uses(p, acts) && !HasCandidate(p, axis) && AxisDebt(p.start, p.goal, axis) > 0
    ensures AxisDebt(Walk(p, acts).state, p.goal, axis) > 0
  {
    hide ProofDebt, TotalCost, Add;
    if acts != [] {
      var a := acts[|acts| - 1];
      UnmovedAxis(p, acts[..|acts| - 1], axis);
      assert a in p.actions && a.delta.At(axis) == 0;
    }
  }

  lemma DebtIsOnSomeAxis(s: Vec, goal: Vec) returns (axis: Axis)
    requires !IsGoal(s, goal)
    ensures AxisDebt(s, goal, axis) > 0
  {
    axis := if s.contract < goal.contract then Contract
            else if s.context < goal.context then Context
            else if s.implementation < goal.implementation then Implementation
            else if s.verification < goal.verification then Verification
            else Review;
  }

  lemma AxisDebtShrinks(s: Vec, delta: Vec, goal: Vec, axis: Axis)
    ensures AxisDebt(Apply(s, delta, goal), goal, axis) <= AxisDebt(s, goal, axis)
    ensures AxisDebt(s, goal, axis) > 0 && delta.At(axis) > 0 ==>
              AxisDebt(Apply(s, delta, goal), goal, axis) < AxisDebt(s, goal, axis)
  {
  }

  lemma ApplyOnAxis(s: Vec, delta: Vec, goal: Vec, axis: Axis)
    requires AxisDebt(s, goal, axis) > 0 && delta.At(axis) > 0
    ensures Debt(Apply(s, delta, goal), goal) < Debt(s, goal)
  {
    hide Apply, AxisDebt;
    AxisDebtShrinks(s, delta, goal, Contract);
    AxisDebtShrinks(s, delta, goal, Context);
    AxisDebtShrinks(s, delta, goal, Implementation);
    AxisDebtShrinks(s, delta, goal, Verification);
    AxisDebtShrinks(s, delta, goal, Review);
  }

  /** Walking on along any axis still in debt ends at the goal. */
  lemma {:induction false} WalkToGoal(p: Problem, acts: seq<Action>)
    requires Uses(p, acts) && EveryDebtHasCandidate(p)
    requires forall axis | AxisDebt(Walk(p, acts).state, p.goal, axis) > 0 :: AxisDebt(p.start, p.goal, axis) > 0
    ensures Reachable(p)
    decreases Debt(Walk(p, acts).state, p.goal)
  {
    hide AxisDebt, Debt, Walk, Successor;
    var w := Walk(p, acts);
    if IsGoal(w.state, p.goal) {
      assert Reachable(p);
    } else {
      var axis := DebtIsOnSomeAxis(w.state, p.goal);
      assert HasCandidate(p, axis);
      var a :| a in p.actions && a.delta.At(axis) > 0;
      WalkExtends(p, acts, a);
      SuccessorCost(p, w, a);
      ApplyOnAxis(w.state, a.delta, p.goal, axis);
      forall x | AxisDebt(Walk(p, acts + [a]).state, p.goal, x) > 0 ensures AxisDebt(p.start, p.goal, x) > 0 {
        AxisDebtShrinks(w.state, a.delta, p.goal, x);
      }
      assert Uses(p, acts + [a]);
      WalkToGoal(p, acts + [a]);
    }
  }

  /** The goal is reachable exactly when every axis in debt has a candidate action in its cell. */
  lemma ReachableIffCandidates(p: Problem)
    ensures Reachable(p) <==> EveryDebtHasCandidate(p)
  {
    hide ProofDebt, TotalCost, Add, HasCandidate;
    if EveryDebtHasCandidate(p) {
      StartWalk(p);
      assert Uses(p, []);
      WalkToGoal(p, []);
    }
    if Reachable(p) {
      var acts :| Uses(p, acts) && IsGoal(Walk(p, acts).state, p.goal);
      forall axis | AxisDebt(p.start, p.goal, axis) > 0 ensures HasCandidate(p, axis) {
        if !HasCandidate(p, axis) {
          UnmovedAxis(p, acts, axis);
          assert false;
        }
      }
    }
  }

  /** So the grid alone tells, below the cap, whether the A* path is complete. */
  lemma GridPredictsCompleteness(p: Problem)
    requires p.weights.step > 0.0 && p.weights.proofDebt >= 0.0005 && |Final(p).closed| < EXPANSION_CAP
    ensures PathFromNode(Search(p).selected, 0).complete <==> EveryDebtHasCandidate(p)
  {
    hide EveryDebtHasCandidate, Search, PathFromNode, Run, Walk;
    CompleteMeansReachable(p);
    ReachableIffCandidates(p);
  }

  // ---- the search agrees with the route evaluator ----

  ghost predicate UniqueIds(actions: seq<Action>) {
    forall i, j | 0 <= i < j < |actions| :: actions[i].id != actions[j].id
  }

  lemma {:induction false} LookupUnique(actions: seq<Action>, a: Action)
    requires UniqueIds(actions) && a in actions
    ensures Lookup(actions, a.id) == Some(a)
  {
    if actions[|actions| - 1] != a {
      LookupUnique(actions[..|actions| - 1], a);
    }
  }

  function Ids(acts: seq<Action>): seq<string> { seq(|acts|, i requires 0 <= i < |acts| => acts[i].id) }

  lemma {:induction false} WalkStepIds(p: Problem, acts: seq<Action>)
    ensures StepIds(Walk(p, acts).steps) == Ids(acts)
  {
    hide ProofDebt, TotalCost, Add, Apply;
    if acts != [] {
      WalkStepIds(p, acts[..|acts| - 1]);
      var w := Walk(p, acts[..|acts| - 1]);
      assert StepIds(Walk(p, acts).steps) == StepIds(w.steps) + [acts[|acts| - 1].id];
    }
  }

  lemma {:induction false} ResolveIds(p: Problem, acts: seq<Action>)
    requires Uses(p, acts) && UniqueIds(p.actions)
    ensures Resolve(p, Ids(acts)) == acts
  {
    hide UniqueIds;
    if acts != [] {
      var init, a := acts[..|acts| - 1], acts[|acts| - 1];
      ResolveIds(p, init);
      assert Ids(acts) == Ids(init) + [a.id] && acts == init + [a] && a in p.actions;
      ResolveExtends(p, Ids(init), a.id);
      LookupUnique(p.actions, a);
    }
  }

  /** Evaluating the ids of any frontier node's steps as a route gives that node's own steps,
      final state and costs. */
  lemma FrontierAgreesWithEvaluator(p: Problem, n: Node, id: string, index: int)
    requires p.weights.step > 0.0 && UniqueIds(p.actions) && Listed(Final(p), n)
    ensures var r := RoutePathResult(p, RoutePath(id, StepIds(n.steps)), index);
            r.steps == n.steps && r.finalState == n.state && r.cost == PathFromNode(n, index).cost
  {
    hide Run, Successor, Debt, Covered, UniqueIds, Walk, Resolve;
    EveryNodeReplays(p, n);
    var acts :| Uses(p, acts) && n == Walk(p, acts);
    WalkStepIds(p, acts);
    ResolveIds(p, acts);
  }
}
