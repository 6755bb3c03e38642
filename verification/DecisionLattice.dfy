/** The decision-lattice planner: a bounded best-first search over a five-axis lattice, and a
    separate evaluator for the route paths it is compared with.

    Weights and action costs are exact reals. Every accumulated cost is an integer number of
    thousandths, because the program rounds each sum to three decimals. */
module DecisionLattice {
  import opened Common
  import opened Sorting

  datatype Axis = Contract | Context | Implementation | Verification | Review

  /** A lattice state, a goal, or an action's delta. */
  datatype Vec = Vec(contract: nat, context: nat, implementation: nat, verification: nat, review: nat) {
    function At(axis: Axis): nat {
      match axis
      case Contract => contract
      case Context => context
      case Implementation => implementation
      case Verification => verification
      case Review => review
    }
  }

  datatype Action = Action(id: string, delta: Vec, risk: real, friction: real, infoGain: real)

  datatype Weights = Weights(step: real, proofDebt: real, risk: real, friction: real, infoGain: real)

  datatype Problem = Problem(start: Vec, goal: Vec, actions: seq<Action>, weights: Weights)

  /** One taken step: the action's own figures and the state it led to. */
  datatype Step = Step(id: string, stateAfter: Vec, risk: real, friction: real, infoGain: real)

  datatype Node = Node(state: Vec, g: int, h: int, risk: int, friction: int, infoGain: int, steps: seq<Step>, f: int)

  datatype Snapshot = Snapshot(step: nat, current: Vec, f: int, open: seq<Vec>)

  /** The variables of the search loop. `found` holds the goal node the loop stopped at. */
  datatype Frontier = Frontier(open: seq<Node>, best: map<Vec, int>, closed: seq<Node>,
                               snapshots: seq<Snapshot>, found: Option<Node>)

  const EXPANSION_CAP := 64

  // ---- arithmetic ----

  /** `Math.round(x * 1000)`: the thousandths nearest to x, halves upwards. */
  function Round(x: real): int { (x * 1000.0 + 0.5).Floor }

  /** `round(acc + x)` for an `acc` that is already in thousandths. */
  function Add(acc: int, x: real): int { Round(acc as real / 1000.0 + x) }

  function Weighted(x: real, weight: real): real { x * weight }

  function Min(a: nat, b: nat): nat { if a <= b then a else b }

  function Apply(s: Vec, delta: Vec, goal: Vec): Vec {
    Vec(Min(goal.contract, s.contract + delta.contract),
        Min(goal.context, s.context + delta.context),
        Min(goal.implementation, s.implementation + delta.implementation),
        Min(goal.verification, s.verification + delta.verification),
        Min(goal.review, s.review + delta.review))
  }

  function AxisDebt(s: Vec, goal: Vec, axis: Axis): nat {
    if goal.At(axis) <= s.At(axis) then 0 else goal.At(axis) - s.At(axis)
  }

  function Debt(s: Vec, goal: Vec): nat {
    AxisDebt(s, goal, Contract) + AxisDebt(s, goal, Context) + AxisDebt(s, goal, Implementation)
    + AxisDebt(s, goal, Verification) + AxisDebt(s, goal, Review)
  }

  function ProofDebt(p: Problem, s: Vec): int { Round(Debt(s, p.goal) as real * p.weights.proofDebt) }

  predicate IsGoal(s: Vec, goal: Vec) {
    goal.contract <= s.contract && goal.context <= s.context && goal.implementation <= s.implementation
    && goal.verification <= s.verification && goal.review <= s.review
  }

  function TotalCost(g: int, h: int, risk: int, friction: int, infoGain: int): int {
    Round((g + h + risk + friction - infoGain) as real / 1000.0)
  }

  // ---- search ----

  function StepFrom(a: Action, after: Vec): Step { Step(a.id, after, a.risk, a.friction, a.infoGain) }

  function NodeFor(p: Problem, state: Vec, g: int, risk: int, friction: int, infoGain: int, steps: seq<Step>): Node {
    var h := ProofDebt(p, state);
    Node(state, g, h, risk, friction, infoGain, steps, TotalCost(g, h, risk, friction, infoGain))
  }

  function StartNode(p: Problem): Node { NodeFor(p, p.start, 0, 0, 0, 0, []) }

  /** The state reached and the sums paid after taking one more action. */
  function Successor(p: Problem, n: Node, a: Action): Node {
    var next := Apply(n.state, a.delta, p.goal);
    NodeFor(p, next, Add(n.g, p.weights.step),
            Add(n.risk, Weighted(a.risk, p.weights.risk)),
            Add(n.friction, Weighted(a.friction, p.weights.friction)),
            Add(n.infoGain, Weighted(a.infoGain, p.weights.infoGain)),
            n.steps + [StepFrom(a, next)])
  }

  /** State keys order as their axes do, first axis first (all coordinates are one digit). */
  predicate VecLe(a: Vec, b: Vec) {
    if a.contract != b.contract then a.contract < b.contract
    else if a.context != b.context then a.context < b.context
    else if a.implementation != b.implementation then a.implementation < b.implementation
    else if a.verification != b.verification then a.verification < b.verification
    else a.review <= b.review
  }

  predicate NodeLe(a: Node, b: Node) {
    if a.f != b.f then a.f < b.f
    else if a.h != b.h then a.h < b.h
    else if a.risk != b.risk then a.risk < b.risk
    else if a.friction != b.friction then a.friction < b.friction
    else if a.infoGain != b.infoGain then b.infoGain < a.infoGain
    else VecLe(a.state, b.state)
  }

  function Keys(nodes: seq<Node>): seq<Vec> { seq(|nodes|, i requires 0 <= i < |nodes| => nodes[i].state) }

  function Init(p: Problem): Frontier {
    Frontier([StartNode(p)], map[p.start := 0], [], [], None)
  }

  /** One turn of the inner loop: push the successor unless its state is known at no greater cost. */
  function Relax(p: Problem, current: Node, a: Action, f: Frontier): Frontier {
    var next := Successor(p, current, a);
    if next.state in f.best && f.best[next.state] <= next.g then f
    else f.(best := f.best[next.state := next.g], open := f.open + [next])
  }

  /** The inner loop from action k on. */
  function RelaxFrom(p: Problem, current: Node, k: nat, f: Frontier): Frontier
    requires k <= |p.actions|
    decreases |p.actions| - k
  {
    if k == |p.actions| then f else RelaxFrom(p, current, k + 1, Relax(p, current, p.actions[k], f))
  }

  /** The sorted open list's first node moved to the closed list. */
  function Pop(f: Frontier): Frontier
    requires f.open != []
    ensures |Pop(f).closed| == |f.closed| + 1
  {
    SortMembers(f.open, NodeLe);
    var sorted := SortBy(f.open, NodeLe);
    var snapshot := Snapshot(|f.closed| + 1, sorted[0].state, sorted[0].f, SortBy(Keys(sorted[1..]), VecLe));
    f.(open := sorted[1..], closed := f.closed + [sorted[0]], snapshots := f.snapshots + [snapshot])
  }

  function Current(f: Frontier): Node
    requires f.closed != []
  {
    f.closed[|f.closed| - 1]
  }

  /** One turn of the outer loop. */
  function Expand(p: Problem, f: Frontier): Frontier
    requires f.open != []
  {
    var popped := Pop(f);
    if IsGoal(Current(popped).state, p.goal) then popped.(found := Some(Current(popped)))
    else RelaxFrom(p, Current(popped), 0, popped)
  }

  predicate Running(f: Frontier) { f.open != [] && |f.closed| < EXPANSION_CAP && f.found.None? }

  lemma {:induction false} RelaxFromKeepsLists(p: Problem, current: Node, k: nat, f: Frontier)
    requires k <= |p.actions|
    ensures var r := RelaxFrom(p, current, k, f);
            r.closed == f.closed && r.found == f.found && r.snapshots == f.snapshots
    decreases |p.actions| - k
  {
    if k < |p.actions| {
      RelaxFromKeepsLists(p, current, k + 1, Relax(p, current, p.actions[k], f));
    }
  }

  lemma ExpandGrowsClosed(p: Problem, f: Frontier)
    requires f.open != []
    ensures |Expand(p, f).closed| == |f.closed| + 1
  {
    RelaxFromKeepsLists(p, Current(Pop(f)), 0, Pop(f));
  }

  function Run(p: Problem, f: Frontier): Frontier
    decreases EXPANSION_CAP - |f.closed|
  {
    if Running(f) then
      ExpandGrowsClosed(p, f);
      Run(p, Expand(p, f))
    else f
  }

  datatype Cost = Cost(g: int, h: int, risk: int, friction: int, infoGain: int, f: int)

  datatype Path = Path(id: string, rankHint: int, route: seq<string>, steps: seq<Step>, finalState: Vec,
                       proofDebt: int, complete: bool, cost: Cost)

  const ASTAR_ID := "astar_frontier_path"

  function StepIds(steps: seq<Step>): seq<string> { seq(|steps|, i requires 0 <= i < |steps| => steps[i].id) }

  function PathFromNode(n: Node, rankHint: int): Path {
    Path(ASTAR_ID, rankHint, StepIds(n.steps), n.steps, n.state, n.h, n.h == 0,
         Cost(n.g, n.h, n.risk, n.friction, n.infoGain, n.f))
  }

  /** The node the search selects: the goal node it popped, or the start node. */
  function SelectedNode(p: Problem, f: Frontier): Node {
    if f.found.Some? then f.found.value else StartNode(p)
  }

  datatype SearchResult = SearchResult(selected: Node, final: Frontier)

  function Search(p: Problem): SearchResult {
    var f := Run(p, Init(p));
    SearchResult(SelectedNode(p, f), f.(open := SortBy(f.open, NodeLe)))
  }

  /** The search as the program runs it. */
  method RunAStar(p: Problem) returns (r: SearchResult)
    ensures r == Search(p)
  {
    hide Successor, NodeLe, StartNode, IsGoal;
    var open := [StartNode(p)];
    var best := map[p.start := 0];
    var closed: seq<Node> := [];
    var snapshots: seq<Snapshot> := [];
    var selected := open[0];
    var found: Option<Node> := None;
    while |open| > 0 && |closed| < EXPANSION_CAP && found.None?
      invariant Run(p, Frontier(open, best, closed, snapshots, found)) == Run(p, Init(p))
      invariant selected == if found.Some? then found.value else StartNode(p)
      decreases EXPANSION_CAP - |closed|
    {
      ghost var before := Frontier(open, best, closed, snapshots, found);
      ExpandGrowsClosed(p, before);
      SortMembers(open, NodeLe);
      open := SortBy(open, NodeLe);
      var current := open[0];
      open := open[1..];
      closed := closed + [current];
      snapshots := snapshots + [Snapshot(|closed|, current.state, current.f, SortBy(Keys(open), VecLe))];
      if IsGoal(current.state, p.goal) {
        selected := current;
        found := Some(current);
      } else {
        var k := 0;
        while k < |p.actions|
          invariant k <= |p.actions|
          invariant RelaxFrom(p, current, k, Frontier(open, best, closed, snapshots, found)) == Expand(p, before)
        {
          var next := Successor(p, current, p.actions[k]);
          if !(next.state in best && best[next.state] <= next.g) {
            best := best[next.state := next.g];
            open := open + [next];
          }
          k := k + 1;
        }
      }
    }
    r := SearchResult(selected, Frontier(SortBy(open, NodeLe), best, closed, snapshots, found));
  }

  // ---- route paths ----

  /** The action a route id names: the last one of that id, as in a Map built in order. */
  function Lookup(actions: seq<Action>, id: string): Option<Action> {
    if actions == [] then None
    else if actions[|actions| - 1].id == id then Some(actions[|actions| - 1])
    else Lookup(actions[..|actions| - 1], id)
  }

  /** The actions a route takes; unknown ids are skipped. */
  function Resolve(p: Problem, ids: seq<string>): seq<Action> {
    if ids == [] then []
    else
      var rest := Resolve(p, ids[..|ids| - 1]);
      match Lookup(p.actions, ids[|ids| - 1])
      case None => rest
      case Some(a) => rest + [a]
  }

  /** Taking a finite sequence of actions from the start. */
  function Walk(p: Problem, acts: seq<Action>): Node {
    if acts == [] then StartNode(p)
    else Successor(p, Walk(p, acts[..|acts| - 1]), acts[|acts| - 1])
  }

  lemma WalkExtends(p: Problem, acts: seq<Action>, a: Action)
    ensures Walk(p, acts + [a]) == Successor(p, Walk(p, acts), a)
  {
    assert (acts + [a])[..|acts|] == acts;
  }

  lemma WalkIsNode(p: Problem, acts: seq<Action>)
    ensures var n := Walk(p, acts); n == NodeFor(p, n.state, n.g, n.risk, n.friction, n.infoGain, n.steps)
  {
  }

  lemma ResolveExtends(p: Problem, ids: seq<string>, id: string)
    ensures Resolve(p, ids + [id]) == match Lookup(p.actions, id)
                                      case None => Resolve(p, ids)
                                      case Some(a) => Resolve(p, ids) + [a]
  {
    assert (ids + [id])[..|ids|] == ids;
  }

  datatype RoutePath = RoutePath(id: string, actionIds: seq<string>)

  function RoutePathResult(p: Problem, route: RoutePath, rankHint: int): Path {
    var n := Walk(p, Resolve(p, route.actionIds));
    Path(route.id, rankHint, route.actionIds, n.steps, n.state, n.h, IsGoal(n.state, p.goal),
         Cost(n.g, n.h, n.risk, n.friction, n.infoGain, n.f))
  }

  /** The linear evaluator, with its running sums. */
  method EvaluateRoutePath(p: Problem, route: RoutePath, index: int) returns (r: Path)
    ensures r == RoutePathResult(p, route, index)
  {
    hide Add, Weighted, TotalCost, ProofDebt, Apply;
    var state := p.start;
    var g, risk, friction, infoGain := 0, 0, 0, 0;
    var steps: seq<Step> := [];
    ghost var n := StartNode(p);
    assert n == Walk(p, Resolve(p, route.actionIds[..0]));
    for i := 0 to |route.actionIds|
      invariant n == Walk(p, Resolve(p, route.actionIds[..i]))
      invariant n.state == state && n.g == g && n.risk == risk && n.friction == friction
      invariant n.infoGain == infoGain && n.steps == steps
    {
      assert route.actionIds[..i + 1] == route.actionIds[..i] + [route.actionIds[i]];
      ResolveExtends(p, route.actionIds[..i], route.actionIds[i]);
      match Lookup(p.actions, route.actionIds[i]) {
        case None =>
        case Some(a) =>
          WalkExtends(p, Resolve(p, route.actionIds[..i]), a);
          n := Successor(p, n, a);
          g := Add(g, p.weights.step);
          risk := Add(risk, Weighted(a.risk, p.weights.risk));
          friction := Add(friction, Weighted(a.friction, p.weights.friction));
          infoGain := Add(infoGain, Weighted(a.infoGain, p.weights.infoGain));
          state := Apply(state, a.delta, p.goal);
          steps := steps + [StepFrom(a, state)];
      }
    }
    assert route.actionIds[..|route.actionIds|] == route.actionIds;
    WalkIsNode(p, Resolve(p, route.actionIds));
    var h := ProofDebt(p, state);
    r := Path(route.id, index, route.actionIds, steps, state, h, IsGoal(state, p.goal),
              Cost(g, h, risk, friction, infoGain, TotalCost(g, h, risk, friction, infoGain)));
  }
}
