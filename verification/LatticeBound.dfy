/** How many nodes the search can expand, from the start, the goal and nothing else. */
module LatticeBound {
  import opened Common
  import opened Sorting
  import opened DecisionLattice
  import opened LatticeFrontier

  // ---- no node twice ----

  /** Every node ever pushed. */
  function Nodes(f: Frontier): seq<Node> { f.closed + f.open }

  lemma NodesAreListed(f: Frontier)
    ensures forall n :: n in Nodes(f) <==> Listed(f, n)
  {
  }

  lemma NoRepeatsAppend(s: seq<Node>, n: Node)
    requires NoRepeats(s) && n !in s
    ensures NoRepeats(s + [n])
  {
  }

  lemma RelaxAddsNew(p: Problem, current: Node, a: Action, f: Frontier)
    requires Accounted(p, f) && NoRepeats(Nodes(f))
    ensures NoRepeats(Nodes(Relax(p, current, a, f)))
  {
    hide Successor, Replays, Frugal, Held, NoRepeats;
    var next := Successor(p, current, a);
    var r := Relax(p, current, a, f);
    if r != f {
      NodesAreListed(f);
      assert next !in Nodes(f);
      assert Nodes(r) == Nodes(f) + [next];
      NoRepeatsAppend(Nodes(f), next);
    }
  }

  lemma {:induction false} RelaxFromAddsNew(p: Problem, current: Node, k: nat, f: Frontier)
    requires p.weights.step > 0.0 && k <= |p.actions| && Listed(f, current) && Accounted(p, f) && NoRepeats(Nodes(f))
    ensures NoRepeats(Nodes(RelaxFrom(p, current, k, f)))
    decreases |p.actions| - k
  {
    hide Relax, Accounted, NoRepeats, Nodes;
    if k < |p.actions| {
      RelaxAddsNew(p, current, p.actions[k], f);
      RelaxKeeps(p, current, p.actions[k], f);
      RelaxFromAddsNew(p, current, k + 1, Relax(p, current, p.actions[k], f));
    }
  }

  lemma PopMoves(f: Frontier)
    requires f.open != [] && NoRepeats(Nodes(f))
    ensures NoRepeats(Nodes(Pop(f)))
  {
    hide NoRepeats, Keys, SortBy, NodeLe;
    SortMembers(f.open, NodeLe);
    SortIsPermutation(f.open, NodeLe);
    var sorted := SortBy(f.open, NodeLe);
    assert Nodes(Pop(f)) == f.closed + sorted;
    SameRepeats(f.closed, f.open, sorted);
  }

  lemma SameRepeats(a: seq<Node>, b: seq<Node>, c: seq<Node>)
    requires multiset(b) == multiset(c) && NoRepeats(a + b)
    ensures NoRepeats(a + c)
  {
    hide NoRepeats;
    assert multiset(a + c) == multiset(a) + multiset(c) && multiset(a + b) == multiset(a) + multiset(b);
    NoRepeatsMeaning(a + b);
    NoRepeatsMeaning(a + c);
  }

  lemma ExpandAddsNew(p: Problem, f: Frontier)
    requires p.weights.step > 0.0 && Running(f)
    ensures Invariant(p, f) && NoRepeats(Nodes(f)) ==> NoRepeats(Nodes(Expand(p, f)))
  {
    hide Relax, IsGoal, RelaxFrom, Successor, Replays, Frugal, Covered, Pop, NoRepeats, Accounted;
    if Invariant(p, f) && NoRepeats(Nodes(f)) {
      var popped := Pop(f);
      PopKeeps(p, f);
      PopMoves(f);
      if !IsGoal(Current(popped).state, p.goal) {
        RelaxFromAddsNew(p, Current(popped), 0, popped);
      }
    }
  }

  lemma {:induction false} RunAddsNew(p: Problem, f: Frontier)
    requires p.weights.step > 0.0 && Invariant(p, f) && NoRepeats(Nodes(f))
    ensures NoRepeats(Nodes(Run(p, f)))
    decreases EXPANSION_CAP - |f.closed|
  {
    hide Invariant, Expand, NoRepeats, Nodes;
    if Running(f) {
      ExpandKeeps(p, f);
      ExpandAddsNew(p, f);
      ExpandGrowsClosed(p, f);
      RunAddsNew(p, Expand(p, f));
    }
  }

  // ---- where the nodes lie ----

  predicate Between(low: Vec, v: Vec, high: Vec) { IsGoal(v, low) && IsGoal(high, v) }

  function Meet(a: Vec, b: Vec): Vec {
    Vec(Min(a.contract, b.contract), Min(a.context, b.context), Min(a.implementation, b.implementation),
        Min(a.verification, b.verification), Min(a.review, b.review))
  }

  lemma {:induction false} WalkStaysAbove(p: Problem, acts: seq<Action>)
    ensures IsGoal(Walk(p, acts).state, Meet(p.start, p.goal))
    ensures acts != [] ==> IsGoal(p.goal, Walk(p, acts).state)
    ensures |Walk(p, acts).steps| == |acts|
  {
    hide Add, Round, ProofDebt, TotalCost, Weighted;
    if acts != [] {
      WalkStaysAbove(p, acts[..|acts| - 1]);
    }
  }

  /** The step cost of a walk is proportional to its length. */
  lemma {:induction false} WalkCost(p: Problem, acts: seq<Action>)
    ensures Walk(p, acts).g == |acts| * StepCost(p)
  {
    hide Successor, StepCost;
    if acts != [] {
      var init := acts[..|acts| - 1];
      WalkCost(p, init);
      SuccessorCost(p, Walk(p, init), acts[|acts| - 1]);
      assert |acts| * StepCost(p) == |init| * StepCost(p) + StepCost(p);
    }
  }

  /** The states between two others. */
  function Box(low: Vec, high: Vec): set<Vec> {
    set a: nat, b: nat, c: nat, d: nat, e: nat
      | a <= high.contract && b <= high.context && c <= high.implementation && d <= high.verification && e <= high.review
        && Between(low, Vec(a, b, c, d, e), high)
      :: Vec(a, b, c, d, e)
  }

  /** How often a state can be pushed: its paths pay at least one unit of debt a step, the first excepted when the start
      is beyond the goal on some axis. */
  function Slots(p: Problem): set<(Vec, nat)> {
    var extra := if IsGoal(p.goal, p.start) then 0 else 1;
    {(p.start, 0)} + set v: Vec, k: nat
      | v in Box(Meet(p.start, p.goal), p.goal) && 1 <= k <= Debt(p.start, p.goal) + extra && k + Debt(v, p.goal) <= Debt(p.start, p.goal) + extra
      :: (v, k)
  }

  function SlotOf(n: Node): (Vec, nat) { (n.state, |n.steps|) }

  lemma NodeHasSlot(p: Problem, n: Node)
    requires Replays(p, n) && Frugal(p, n)
    ensures SlotOf(n) in Slots(p) && n.g == |n.steps| * StepCost(p)
  {
    hide Successor, StepCost, Debt;
    var acts :| Traced(p, n, acts);
    WalkStaysAbove(p, acts);
    WalkCost(p, acts);
    if n.steps != [] {
      var v := n.state;
      assert v == Vec(v.contract, v.context, v.implementation, v.verification, v.review);
      assert v in Box(Meet(p.start, p.goal), p.goal);
    }
  }

  lemma {:induction false} CountBound(nodes: seq<Node>, slots: set<(Vec, nat)>)
    requires NoRepeats(nodes) && (forall n | n in nodes :: SlotOf(n) in slots)
    requires forall n, m | n in nodes && m in nodes && SlotOf(n) == SlotOf(m) :: n == m
    ensures |nodes| <= |slots|
  {
    if nodes != [] {
      var init, last := nodes[..|nodes| - 1], nodes[|nodes| - 1];
      assert nodes == init + [last];
      assert forall n | n in init :: n in nodes && n != last;
      CountBound(init, slots - {SlotOf(last)});
    }
  }

  /** The search expands at most as many nodes as there are slots. */
  lemma ExpansionsBounded(p: Problem)
    requires p.weights.step > 0.0
    ensures |Final(p).closed| <= |Slots(p)|
  {
    hide Run, Slots, Frugal, Replays, Covered, SlotOf;
    var f := Final(p);
    InitInvariant(p);
    RunKeeps(p, Init(p));
    assert NoRepeats(Nodes(Init(p)));
    RunAddsNew(p, Init(p));
    var nodes := f.closed;
    assert forall i | 0 <= i < |nodes| :: Nodes(f)[i] == nodes[i];
    forall n | n in nodes ensures SlotOf(n) in Slots(p) && n.g == |n.steps| * StepCost(p) {
      assert Listed(f, n);
      NodeHasSlot(p, n);
    }
    forall n, m | n in nodes && m in nodes && SlotOf(n) == SlotOf(m) ensures n == m {
      SameSlot(p, f, n, m);
    }
    CountBound(nodes, Slots(p));
  }

  lemma SameSlot(p: Problem, f: Frontier, n: Node, m: Node)
    requires Accounted(p, f) && Listed(f, n) && Listed(f, m) && SlotOf(n) == SlotOf(m)
    ensures n == m
  {
    hide Replays, Frugal, Covered;
    NodeHasSlot(p, n);
    NodeHasSlot(p, m);
  }

  /** When the debts leave fewer slots than the cap, the `complete` flag tells the truth if and only if every axis in debt
      has a candidate action or the starting debt does not round to nothing: all of it known before the search. */
  lemma CompleteForeseen(p: Problem)
    requires p.weights.step > 0.0 && |Slots(p)| < EXPANSION_CAP
    ensures (PathFromNode(Search(p).selected, 0).complete <==> Reachable(p))
            <==> (EveryDebtHasCandidate(p) || ProofDebt(p, p.start) != 0)
    ensures Final(p).found.Some? <==> EveryDebtHasCandidate(p)
  {
    hide Slots, Run, Reachable, EveryDebtHasCandidate, Search, PathFromNode;
    ExpansionsBounded(p);
    CompleteIffReachable(p);
    FoundIffReachable(p);
    ReachableIffCandidates(p);
  }
}
