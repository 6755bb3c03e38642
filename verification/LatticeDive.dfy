/** Searches that never turn back: when each expanded node has a successor that beats everything seen so far, the search
    follows those successors and expands nothing else. The program's default problem is one of them. */
module LatticeDive {
  import opened Common
  import opened Sorting
  import opened DecisionLattice
  import opened LatticeFrontier

  /** The i-th action leads on from a node: it lowers the total and the debt, pays as much debt as any other, and every
      successor with another state has a greater total; no earlier action reaches its state. */
  ghost predicate Leads(p: Problem, x: Node, i: nat) {
    i < |p.actions| &&
    var y := Successor(p, x, p.actions[i]);
    && y.f < x.f && Debt(y.state, p.goal) < Debt(x.state, p.goal)
    && forall j | 0 <= j < |p.actions| :: Trails(p, Successor(p, x, p.actions[j]), y, i <= j)
  }

  /** Another successor does not get ahead of y. */
  predicate Trails(p: Problem, n: Node, y: Node, later: bool) {
    && Debt(y.state, p.goal) <= Debt(n.state, p.goal)
    && (if n.state == y.state then later else y.f < n.f)
  }

  /** The node x is next: everything else in the open list has a greater total, and no known state has less debt. */
  ghost predicate Diving(p: Problem, f: Frontier, x: Node) {
    && f.found.None? && x in f.open && (forall n | n in f.open && n != x :: x.f < n.f)
    && (forall s | s in f.best :: Debt(x.state, p.goal) <= Debt(s, p.goal))
  }

  lemma PopIsLeast(f: Frontier, x: Node)
    requires x in f.open && forall n | n in f.open && n != x :: x.f < n.f
    ensures Pop(f).closed == f.closed + [x] && Pop(f).best == f.best && Pop(f).found == f.found
    ensures forall n | n in Pop(f).open :: n in f.open
  {
    hide Keys;
    NodeLeIsOrder();
    SortMembers(f.open, NodeLe);
    SortIsSorted(f.open, NodeLe);
    var sorted := SortBy(f.open, NodeLe);
    assert x in sorted && sorted[0] in sorted;
    var k :| 0 <= k < |sorted| && sorted[k] == x;
    assert k == 0 || NodeLe(sorted[0], sorted[k]);
    assert forall n | n in sorted[1..] :: n in sorted;
  }

  /** While the successors are tried, in order: those so far trail y, and y is there once it was tried. */
  ghost predicate Trying(p: Problem, f: Frontier, y: Node, tried: bool) {
    && (forall n | n in f.open && n != y :: y.f < n.f)
    && (forall s | s in f.best :: Debt(y.state, p.goal) <= Debt(s, p.goal))
    && (if tried then y in f.open && y.state in f.best && f.best[y.state] == y.g else y.state !in f.best)
  }

  lemma TryOne(p: Problem, x: Node, i: nat, k: nat, f: Frontier)
    requires Leads(p, x, i) && k < |p.actions| && Trying(p, f, Successor(p, x, p.actions[i]), i < k)
    ensures Trying(p, Relax(p, x, p.actions[k], f), Successor(p, x, p.actions[i]), i < k + 1)
  {
    hide Successor, Debt;
    var y, n := Successor(p, x, p.actions[i]), Successor(p, x, p.actions[k]);
    assert Trails(p, n, y, i <= k);
    SuccessorCost(p, x, p.actions[i]);
    SuccessorCost(p, x, p.actions[k]);
  }

  lemma {:induction false} TryAll(p: Problem, x: Node, i: nat, k: nat, f: Frontier)
    requires Leads(p, x, i) && k <= |p.actions| && Trying(p, f, Successor(p, x, p.actions[i]), i < k)
    ensures Trying(p, RelaxFrom(p, x, k, f), Successor(p, x, p.actions[i]), true)
    decreases |p.actions| - k
  {
    hide Successor, Trying, Relax, Trails;
    if k < |p.actions| {
      TryOne(p, x, i, k, f);
      TryAll(p, x, i, k + 1, Relax(p, x, p.actions[k], f));
    }
  }

  lemma DiveStep(p: Problem, f: Frontier, x: Node, i: nat)
    requires Diving(p, f, x) && Running(f) && !IsGoal(x.state, p.goal) && Leads(p, x, i)
    ensures Expand(p, f).closed == f.closed + [x] && Diving(p, Expand(p, f), Successor(p, x, p.actions[i]))
  {
    hide Successor, Debt, IsGoal, Pop, RelaxFrom, Trails;
    var y := Successor(p, x, p.actions[i]);
    PopIsLeast(f, x);
    var popped := Pop(f);
    assert Current(popped) == x;
    assert Trying(p, popped, y, false);
    TryAll(p, x, i, 0, popped);
    RelaxFromKeepsLists(p, x, 0, popped);
  }

  lemma DiveEnds(p: Problem, f: Frontier, x: Node)
    requires Diving(p, f, x) && Running(f) && IsGoal(x.state, p.goal)
    ensures Expand(p, f).found == Some(x) && Expand(p, f).closed == f.closed + [x]
  {
    hide Debt, IsGoal, Pop;
    PopIsLeast(f, x);
    assert Current(Pop(f)) == x;
  }

  /** The node at the end of a sequence of action indices. */
  function Along(p: Problem, x: Node, path: seq<nat>): Node
    requires forall k | 0 <= k < |path| :: path[k] < |p.actions|
    decreases |path|
  {
    if path == [] then x else Along(p, Successor(p, x, p.actions[path[0]]), path[1..])
  }

  /** Each action of the sequence leads on, and the last one reaches the goal. */
  ghost predicate LeadsToGoal(p: Problem, x: Node, path: seq<nat>)
    decreases |path|
  {
    (forall k | 0 <= k < |path| :: path[k] < |p.actions|) &&
    if path == [] then IsGoal(x.state, p.goal)
    else !IsGoal(x.state, p.goal) && Leads(p, x, path[0]) && LeadsToGoal(p, Successor(p, x, p.actions[path[0]]), path[1..])
  }

  lemma {:induction false} DiveRuns(p: Problem, f: Frontier, x: Node, path: seq<nat>)
    requires Diving(p, f, x) && LeadsToGoal(p, x, path) && |f.closed| + |path| < EXPANSION_CAP
    ensures var r := Run(p, f); r.found == Some(Along(p, x, path)) && |r.closed| == |f.closed| + |path| + 1
    decreases |path|
  {
    hide Leads, Successor, Expand, IsGoal, Diving;
    OpenIsNotEmpty(p, f, x);
    var r := Expand(p, f);
    if path == [] {
      DiveEnds(p, f, x);
    } else {
      DiveStep(p, f, x, path[0]);
      DiveRuns(p, r, Successor(p, x, p.actions[path[0]]), path[1..]);
    }
  }

  lemma OpenIsNotEmpty(p: Problem, f: Frontier, x: Node)
    requires Diving(p, f, x)
    ensures f.open != [] && f.found.None?
  {
  }

  /** When the actions of a sequence lead from the start to the goal, the search selects the node they reach and expands
      the nodes on the way and no other. */
  lemma SearchDives(p: Problem, path: seq<nat>)
    requires LeadsToGoal(p, StartNode(p), path) && |path| < EXPANSION_CAP
    ensures Search(p).selected == Along(p, StartNode(p), path) && |Final(p).closed| == |path| + 1
  {
    hide Run, LeadsToGoal, Along, Debt;
    assert Diving(p, Init(p), StartNode(p));
    DiveRuns(p, Init(p), StartNode(p), path);
  }

  // ---- the default problem ----

  /** The program's actions in the order of their ids, as normalization leaves them (lines 34-93). */
  const DEFAULT_ACTIONS: seq<Action> := [
    Action("focused_verification", Vec(0, 0, 0, 1, 0), 0.12, 0.45, 0.85),
    Action("honest_mode", Vec(0, 0, 0, 1, 0), 0.05, 0.2, 0.65),
    Action("minimal_patch", Vec(0, 0, 2, 0, 0), 0.35, 0.35, 0.4),
    Action("proof_field_scan", Vec(0, 2, 0, 1, 0), 0.1, 0.35, 0.95),
    Action("read_triwiki", Vec(0, 1, 0, 0, 0), 0.05, 0.2, 0.7),
    Action("risk_scoped_review", Vec(0, 0, 0, 0, 1), 0.2, 0.55, 1.0),
    Action("seal_contract", Vec(2, 0, 0, 0, 0), 0.05, 0.25, 0.9)]

  const DEFAULT_GOAL: Vec := Vec(2, 2, 2, 2, 1)

  const DEFAULT_PROBLEM: Problem :=
    Problem(Vec(0, 0, 0, 0, 0), DEFAULT_GOAL, DEFAULT_ACTIONS, Weights(1.0, 3.0, 1.0, 1.0, 1.0))

  /** What a step costs besides debt, in thousandths. */
  function Net(p: Problem, a: Action): int {
    StepCost(p) + Round(Weighted(a.risk, p.weights.risk)) + Round(Weighted(a.friction, p.weights.friction))
      - Round(Weighted(a.infoGain, p.weights.infoGain))
  }

  /** A node's totals add up. */
  predicate AddsUp(p: Problem, n: Node) {
    n.h == ProofDebt(p, n.state) && n.f == n.g + n.h + n.risk + n.friction - n.infoGain
  }

  lemma SuccessorTotal(p: Problem, n: Node, a: Action)
    requires AddsUp(p, n)
    ensures var m := Successor(p, n, a);
            AddsUp(p, m) && m.state == Apply(n.state, a.delta, p.goal) && m.f == n.f + Net(p, a) + m.h - n.h
  {
    hide Round, ProofDebt, Apply;
    var m := Successor(p, n, a);
    TotalCostIsSum(m.g, m.h, m.risk, m.friction, m.infoGain);
    AddIsAdditive(n.g, p.weights.step);
    AddIsAdditive(n.risk, Weighted(a.risk, p.weights.risk));
    AddIsAdditive(n.friction, Weighted(a.friction, p.weights.friction));
    AddIsAdditive(n.infoGain, Weighted(a.infoGain, p.weights.infoGain));
  }

  function NetOf(j: nat): int {
    match j
    case 0 => 720
    case 1 => 600
    case 2 => 1300
    case 3 => 500
    case 4 => 550
    case 5 => 750
    case _ => 400
  }

  function DeltaOf(j: nat): Vec {
    match j
    case 0 => Vec(0, 0, 0, 1, 0)
    case 1 => Vec(0, 0, 0, 1, 0)
    case 2 => Vec(0, 0, 2, 0, 0)
    case 3 => Vec(0, 2, 0, 1, 0)
    case 4 => Vec(0, 1, 0, 0, 0)
    case 5 => Vec(0, 0, 0, 0, 1)
    case _ => Vec(2, 0, 0, 0, 0)
  }

  lemma DefaultFigures(j: nat)
    requires j < 7
    ensures Net(DEFAULT_PROBLEM, DEFAULT_ACTIONS[j]) == NetOf(j) && DEFAULT_ACTIONS[j].delta == DeltaOf(j)
  {
  }

  lemma DefaultDebt(s: Vec)
    ensures ProofDebt(DEFAULT_PROBLEM, s) == 3000 * DebtOf(s)
  {
    hide Debt;
  }

  /** The state after the j-th default action. */
  function After(s: Vec, j: nat): Vec { Apply(s, DeltaOf(j), DEFAULT_GOAL) }

  function DebtOf(s: Vec): nat { Debt(s, DEFAULT_GOAL) }

  /** `Leads` read off the state alone. */
  predicate LeadsFrom(s: Vec, i: nat) {
    i < 7 && DebtOf(After(s, i)) < DebtOf(s) && NetOf(i) + 3000 * DebtOf(After(s, i)) < 3000 * DebtOf(s) &&
    forall j | 0 <= j < 7 :: TrailsFrom(s, i, j)
  }

  predicate TrailsFrom(s: Vec, i: nat, j: nat)
    requires i < 7 && j < 7
  {
    && DebtOf(After(s, i)) <= DebtOf(After(s, j))
    && (if After(s, j) == After(s, i) then i <= j
        else NetOf(i) + 3000 * DebtOf(After(s, i)) < NetOf(j) + 3000 * DebtOf(After(s, j)))
  }

  lemma LeadsOn(x: Node, i: nat)
    requires AddsUp(DEFAULT_PROBLEM, x) && LeadsFrom(x.state, i)
    ensures Leads(DEFAULT_PROBLEM, x, i)
  {
    hide Successor, Net, Round, Debt, Apply, ProofDebt, AddsUp, DEFAULT_ACTIONS, NetOf, After;
    var p := DEFAULT_PROBLEM;
    SevenActions();
    Figure(x, i);
    var y := Successor(p, x, p.actions[i]);
    forall j | 0 <= j < |p.actions| ensures Trails(p, Successor(p, x, p.actions[j]), y, i <= j) {
      Figure(x, j);
      assert TrailsFrom(x.state, i, j);
    }
  }

  lemma SevenActions()
    ensures |DEFAULT_ACTIONS| == 7
  {
  }

  lemma Figure(x: Node, j: nat)
    requires AddsUp(DEFAULT_PROBLEM, x) && j < 7 && |DEFAULT_ACTIONS| == 7
    ensures var m := Successor(DEFAULT_PROBLEM, x, DEFAULT_ACTIONS[j]);
        AddsUp(DEFAULT_PROBLEM, m) && m.state == After(x.state, j)
        && m.f == x.f + NetOf(j) + 3000 * DebtOf(After(x.state, j)) - 3000 * DebtOf(x.state)
  {
    hide Successor, Net, Round, Debt, Apply, ProofDebt, DEFAULT_ACTIONS, NetOf;
    SuccessorTotal(DEFAULT_PROBLEM, x, DEFAULT_ACTIONS[j]);
    DefaultFigures(j);
    DefaultDebt(x.state);
    DefaultDebt(After(x.state, j));
  }

  /** Each default action sets its axes to at most the goal. */
  lemma AfterAxes(s: Vec, j: nat)
    ensures var d, t := DeltaOf(j), After(s, j);
      t == Vec(Min(2, s.contract + d.contract), Min(2, s.context + d.context), Min(2, s.implementation + d.implementation),
               Min(2, s.verification + d.verification), Min(1, s.review + d.review))
  {
  }

  lemma DebtLeft(t: Vec)
    requires t.contract <= 2 && t.context <= 2 && t.implementation <= 2 && t.verification <= 2 && t.review <= 1
    ensures DebtOf(t) == 9 - t.contract - t.context - t.implementation - t.verification - t.review
  {
  }

  lemma FirstTrails(j: nat)
    requires j < 7
    ensures TrailsFrom(Vec(0, 0, 0, 0, 0), 3, j)
  {
    hide After, DebtOf;
    var s := Vec(0, 0, 0, 0, 0);
    AfterAxes(s, 3);
    AfterAxes(s, j);
    DebtLeft(After(s, 3));
    DebtLeft(After(s, j));
    match j {
      case 0 =>
      case 1 =>
      case 2 =>
      case 3 =>
      case 4 =>
      case 5 =>
      case _ =>
    }
  }

  lemma FirstStep()
    ensures LeadsFrom(Vec(0, 0, 0, 0, 0), 3) && After(Vec(0, 0, 0, 0, 0), 3) == Vec(0, 2, 0, 1, 0)
  {
    hide After, DebtOf, TrailsFrom;
    var s := Vec(0, 0, 0, 0, 0);
    AfterAxes(s, 3);
    DebtLeft(s);
    DebtLeft(After(s, 3));
    forall j | 0 <= j < 7 ensures TrailsFrom(s, 3, j) { FirstTrails(j); }
  }

  lemma SecondTrails(j: nat)
    requires j < 7
    ensures TrailsFrom(Vec(0, 2, 0, 1, 0), 6, j)
  {
    hide After, DebtOf;
    var s := Vec(0, 2, 0, 1, 0);
    AfterAxes(s, 6);
    AfterAxes(s, j);
    DebtLeft(After(s, 6));
    DebtLeft(After(s, j));
    match j {
      case 0 =>
      case 1 =>
      case 2 =>
      case 3 =>
      case 4 =>
      case 5 =>
      case _ =>
    }
  }

  lemma SecondStep()
    ensures LeadsFrom(Vec(0, 2, 0, 1, 0), 6) && After(Vec(0, 2, 0, 1, 0), 6) == Vec(2, 2, 0, 1, 0)
  {
    hide After, DebtOf, TrailsFrom;
    var s := Vec(0, 2, 0, 1, 0);
    AfterAxes(s, 6);
    DebtLeft(s);
    DebtLeft(After(s, 6));
    forall j | 0 <= j < 7 ensures TrailsFrom(s, 6, j) { SecondTrails(j); }
  }

  lemma ThirdTrails(j: nat)
    requires j < 7
    ensures TrailsFrom(Vec(2, 2, 0, 1, 0), 2, j)
  {
    hide After, DebtOf;
    var s := Vec(2, 2, 0, 1, 0);
    AfterAxes(s, 2);
    AfterAxes(s, j);
    DebtLeft(After(s, 2));
    DebtLeft(After(s, j));
    match j {
      case 0 =>
      case 1 =>
      case 2 =>
      case 3 =>
      case 4 =>
      case 5 =>
      case _ =>
    }
  }

  lemma ThirdStep()
    ensures LeadsFrom(Vec(2, 2, 0, 1, 0), 2) && After(Vec(2, 2, 0, 1, 0), 2) == Vec(2, 2, 2, 1, 0)
  {
    hide After, DebtOf, TrailsFrom;
    var s := Vec(2, 2, 0, 1, 0);
    AfterAxes(s, 2);
    DebtLeft(s);
    DebtLeft(After(s, 2));
    forall j | 0 <= j < 7 ensures TrailsFrom(s, 2, j) { ThirdTrails(j); }
  }

  lemma FourthTrails(j: nat)
    requires j < 7
    ensures TrailsFrom(Vec(2, 2, 2, 1, 0), 0, j)
  {
    hide After, DebtOf;
    var s := Vec(2, 2, 2, 1, 0);
    AfterAxes(s, 0);
    AfterAxes(s, j);
    DebtLeft(After(s, 0));
    DebtLeft(After(s, j));
    match j {
      case 0 =>
      case 1 =>
      case 2 =>
      case 3 =>
      case 4 =>
      case 5 =>
      case _ =>
    }
  }

  lemma FourthStep()
    ensures LeadsFrom(Vec(2, 2, 2, 1, 0), 0) && After(Vec(2, 2, 2, 1, 0), 0) == Vec(2, 2, 2, 2, 0)
  {
    hide After, DebtOf, TrailsFrom;
    var s := Vec(2, 2, 2, 1, 0);
    AfterAxes(s, 0);
    DebtLeft(s);
    DebtLeft(After(s, 0));
    forall j | 0 <= j < 7 ensures TrailsFrom(s, 0, j) { FourthTrails(j); }
  }

  lemma FifthTrails(j: nat)
    requires j < 7
    ensures TrailsFrom(Vec(2, 2, 2, 2, 0), 5, j)
  {
    hide After, DebtOf;
    var s := Vec(2, 2, 2, 2, 0);
    AfterAxes(s, 5);
    AfterAxes(s, j);
    DebtLeft(After(s, 5));
    DebtLeft(After(s, j));
    match j {
      case 0 =>
      case 1 =>
      case 2 =>
      case 3 =>
      case 4 =>
      case 5 =>
      case _ =>
    }
  }

  lemma FifthStep()
    ensures LeadsFrom(Vec(2, 2, 2, 2, 0), 5) && After(Vec(2, 2, 2, 2, 0), 5) == Vec(2, 2, 2, 2, 1)
  {
    hide After, DebtOf, TrailsFrom;
    var s := Vec(2, 2, 2, 2, 0);
    AfterAxes(s, 5);
    DebtLeft(s);
    DebtLeft(After(s, 5));
    forall j | 0 <= j < 7 ensures TrailsFrom(s, 5, j) { FifthTrails(j); }
  }

  const DEFAULT_PATH: seq<nat> := [3, 6, 2, 0, 5]

  lemma DefaultStep(k: nat)
    requires k < 5
    ensures LeadsFrom(DefaultState(k), DEFAULT_PATH[k]) && After(DefaultState(k), DEFAULT_PATH[k]) == DefaultState(k + 1)
  {
    hide LeadsFrom, After;
    FirstStep();
    SecondStep();
    ThirdStep();
    FourthStep();
    FifthStep();
  }

  lemma {:induction false} DefaultLeads(x: Node, k: nat)
    requires k <= 5 && AddsUp(DEFAULT_PROBLEM, x) && x.state == DefaultState(k)
    ensures LeadsToGoal(DEFAULT_PROBLEM, x, DEFAULT_PATH[k..])
    ensures Along(DEFAULT_PROBLEM, x, DEFAULT_PATH[k..]).state == DEFAULT_PROBLEM.goal
    decreases 5 - k
  {
    hide Leads, LeadsFrom, Successor, AddsUp, After, DefaultState, DEFAULT_ACTIONS;
    SevenActions();
    var path := DEFAULT_PATH[k..];
    DefaultGoal(k);
    if k < 5 {
      var i := DEFAULT_PATH[k];
      assert path[0] == i && path[1..] == DEFAULT_PATH[k + 1..];
      DefaultStep(k);
      LeadsOn(x, i);
      Figure(x, i);
      DefaultLeads(Successor(DEFAULT_PROBLEM, x, DEFAULT_ACTIONS[i]), k + 1);
    }
  }

  lemma DefaultGoal(k: nat)
    requires k <= 5
    ensures IsGoal(DefaultState(k), DEFAULT_PROBLEM.goal) <==> k == 5
    ensures DefaultState(5) == DEFAULT_PROBLEM.goal && DefaultState(0) == DEFAULT_PROBLEM.start
  {
  }

  /** The states on the default path. */
  function DefaultState(k: nat): Vec
    requires k <= 5
  {
    match k
    case 0 => Vec(0, 0, 0, 0, 0)
    case 1 => Vec(0, 2, 0, 1, 0)
    case 2 => Vec(2, 2, 0, 1, 0)
    case 3 => Vec(2, 2, 2, 1, 0)
    case 4 => Vec(2, 2, 2, 2, 0)
    case _ => Vec(2, 2, 2, 2, 1)
  }

  /** The default problem is solved with six expansions, far below the cap: its A* path is complete. */
  lemma DefaultIsSolved()
    ensures |Final(DEFAULT_PROBLEM).closed| == 6
    ensures PathFromNode(Search(DEFAULT_PROBLEM).selected, 0).complete
    ensures Search(DEFAULT_PROBLEM).selected.state == DEFAULT_PROBLEM.goal
  {
    hide Run, LeadsToGoal, Along, Search, Final;
    var p := DEFAULT_PROBLEM;
    var x := StartNode(p);
    TotalCostIsSum(0, x.h, 0, 0, 0);
    DefaultLeads(x, 0);
    assert DEFAULT_PATH[0..] == DEFAULT_PATH;
    SearchDives(p, DEFAULT_PATH);
    DefaultComplete(p);
  }

  lemma DefaultComplete(p: Problem)
    requires p == DEFAULT_PROBLEM && Search(p).selected.state == p.goal && |Final(p).closed| == 6
    ensures PathFromNode(Search(p).selected, 0).complete
  {
    hide Run, Search, Final;
    CompleteMeansReachable(p);
    GoalIsReached(p);
  }

  lemma GoalIsReached(p: Problem)
    requires p == DEFAULT_PROBLEM && Search(p).selected.state == p.goal
    ensures Reachable(p)
  {
    hide Run;
    assert p.start != p.goal;
    if Final(p).found.Some? {
      FoundIsReachable(p);
    }
  }
}
