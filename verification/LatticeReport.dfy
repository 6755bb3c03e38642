/** The decision-lattice report: input normalization, path selection and the report's validator. */
module LatticeReport {
  import opened Common
  import opened Sorting
  import opened Text
  import opened DecisionLattice
  import opened LatticeFrontier

  /** `Number(value)`, with infinities and NaN alike. */
  datatype Num = NotFinite | Finite(value: real)

  datatype RawVec = RawVec(contract: Num, context: Num, implementation: Num, verification: Num, review: Num)

  /** A supplied action; an empty id stands for a missing one. */
  datatype RawAction = RawAction(id: string, delta: RawVec, risk: Num, friction: Num, infoGain: Num)

  datatype RawRoute = RawRoute(id: string, actionIds: seq<string>)

  datatype RawWeights = RawWeights(step: Num, proofDebt: Num, risk: Num, friction: Num, infoGain: Num)

  datatype Input = Input(start: RawVec, goal: RawVec, actions: seq<RawAction>, routes: seq<RawRoute>, weights: RawWeights)

  // ---- normalization ----

  const AXIS_MAX := 3

  function ClampAxis(n: Num): nat {
    if n.NotFinite? || n.value.Floor < 0 then 0
    else if n.value.Floor > AXIS_MAX then AXIS_MAX
    else n.value.Floor
  }

  function NormalizeVec(v: RawVec): Vec {
    Vec(ClampAxis(v.contract), ClampAxis(v.context), ClampAxis(v.implementation),
        ClampAxis(v.verification), ClampAxis(v.review))
  }

  function PositiveOr(n: Num, fallback: real): real {
    if n.Finite? && n.value > 0.0 then n.value else fallback
  }

  function NonNegativeOrZero(n: Num): real {
    if n.Finite? && n.value >= 0.0 then n.value else 0.0
  }

  function NormalizeWeights(w: RawWeights): (r: Weights)
    ensures r.step > 0.0 && r.proofDebt > 0.0 && r.risk > 0.0 && r.friction > 0.0 && r.infoGain > 0.0
  {
    Weights(PositiveOr(w.step, 1.0), PositiveOr(w.proofDebt, 3.0), PositiveOr(w.risk, 1.0),
            PositiveOr(w.friction, 1.0), PositiveOr(w.infoGain, 1.0))
  }

  predicate IdChar(c: char) {
    'a' <= c <= 'z' || IsDigit(c) || c == '_' || c == '.' || c == '/' || c == '-'
  }

  function Lower(c: char): char {
    if 'A' <= c <= 'Z' then (c as int + 32) as char else c
  }

  /** Lower-cased, with each run of characters outside the id alphabet as one underscore. */
  function Underscored(s: string, inRun: bool): string {
    if s == [] then []
    else if IdChar(Lower(s[0])) then [Lower(s[0])] + Underscored(s[1..], false)
    else (if inRun then [] else ['_']) + Underscored(s[1..], true)
  }

  function DropLeadingUnderscores(s: string): string {
    if s != [] && s[0] == '_' then DropLeadingUnderscores(s[1..]) else s
  }

  function DropTrailingUnderscores(s: string): string {
    if s != [] && s[|s| - 1] == '_' then DropTrailingUnderscores(s[..|s| - 1]) else s
  }

  function SafeId(s: string): (id: string)
    ensures id != []
  {
    var stripped := DropTrailingUnderscores(DropLeadingUnderscores(Underscored(Trim(s), false)));
    if stripped == [] then "item" else stripped
  }

  function NormalizeAction(a: RawAction, index: nat): Action {
    Action(SafeId(if a.id == [] then "action_" + Decimal(index + 1) else a.id), NormalizeVec(a.delta),
           NonNegativeOrZero(a.risk), NonNegativeOrZero(a.friction), NonNegativeOrZero(a.infoGain))
  }

  predicate MovesSomeAxis(a: Action) { a.delta != Vec(0, 0, 0, 0, 0) }

  /** `localeCompare` on the id alphabet: punctuation, then digits, then letters. */
  function Collation(c: char): int {
    if c == '_' then 0 else if c == '-' then 1 else if c == '.' then 2 else if c == '/' then 3
    else if IsDigit(c) then 4 + (c as int - '0' as int)
    else if 'a' <= c <= 'z' then 14 + (c as int - 'a' as int)
    else 100 + c as int
  }

  predicate IdLe(a: string, b: string) { LexLe(a, b, Collation) }

  predicate ActionLe(a: Action, b: Action) { IdLe(a.id, b.id) }

  function NormalizeEach(raw: seq<RawAction>, first: nat): seq<Action> {
    if raw == [] then []
    else
      var a := NormalizeAction(raw[0], first);
      (if MovesSomeAxis(a) then [a] else []) + NormalizeEach(raw[1..], first + 1)
  }

  function NormalizeActions(raw: seq<RawAction>): seq<Action> { SortBy(NormalizeEach(raw, 0), ActionLe) }

  predicate Known(actions: seq<Action>, id: string) { exists i | 0 <= i < |actions| :: actions[i].id == id }

  /** Trimmed, non-empty, made safe, and naming an action. */
  function KnownIds(actions: seq<Action>, ids: seq<string>): seq<string> {
    if ids == [] then []
    else
      (if Trim(ids[0]) != [] && Known(actions, SafeId(ids[0])) then [SafeId(ids[0])] else [])
      + KnownIds(actions, ids[1..])
  }

  function NormalizeRoute(actions: seq<Action>, r: RawRoute, index: nat): RoutePath {
    RoutePath(SafeId(if r.id == [] then "route_path_" + Decimal(index + 1) else r.id), KnownIds(actions, r.actionIds))
  }

  predicate HasActions(r: RoutePath) { r.actionIds != [] }

  predicate RouteLe(a: RoutePath, b: RoutePath) { IdLe(a.id, b.id) }

  function NormalizeEachRoute(actions: seq<Action>, raw: seq<RawRoute>, first: nat): seq<RoutePath> {
    if raw == [] then []
    else
      var r := NormalizeRoute(actions, raw[0], first);
      (if HasActions(r) then [r] else []) + NormalizeEachRoute(actions, raw[1..], first + 1)
  }

  function NormalizeRoutes(actions: seq<Action>, raw: seq<RawRoute>): seq<RoutePath> {
    SortBy(NormalizeEachRoute(actions, raw, 0), RouteLe)
  }

  // ---- selection ----

  /** Least total first, then debt, risk, friction, the larger information gain, and the id. */
  predicate PathLe(a: Path, b: Path) {
    if a.cost.f != b.cost.f then a.cost.f < b.cost.f
    else if a.cost.h != b.cost.h then a.cost.h < b.cost.h
    else if a.cost.risk != b.cost.risk then a.cost.risk < b.cost.risk
    else if a.cost.friction != b.cost.friction then a.cost.friction < b.cost.friction
    else if a.cost.infoGain != b.cost.infoGain then b.cost.infoGain < a.cost.infoGain
    else IdLe(a.id, b.id)
  }

  function CompleteOnly(paths: seq<Path>): seq<Path> {
    if paths == [] then []
    else (if paths[0].complete then [paths[0]] else []) + CompleteOnly(paths[1..])
  }

  function SelectPath(candidates: seq<Path>, astar: Path): Path {
    var complete := CompleteOnly(candidates);
    var pool := SortBy(if complete != [] then complete else candidates, PathLe);
    var selected := if pool == [] then astar else pool[0];
    if selected.cost.f <= astar.cost.f then selected else astar
  }

  function RouteCandidates(p: Problem, routes: seq<RoutePath>): seq<Path> {
    seq(|routes|, i requires 0 <= i < |routes| => RoutePathResult(p, routes[i], i))
  }

  function AStarPath(p: Problem, rankHint: int): Path { PathFromNode(Search(p).selected, rankHint) }

  function Candidates(p: Problem, routes: seq<RoutePath>): seq<Path> {
    SortBy(RouteCandidates(p, routes) + [AStarPath(p, |routes|)], PathLe)
  }

  // ---- report ----

  datatype Cell = Cell(axis: Axis, start: nat, goal: nat, candidateActions: seq<string>)

  function CandidateIds(actions: seq<Action>, axis: Axis): seq<string> {
    if actions == [] then []
    else (if actions[0].delta.At(axis) > 0 then [actions[0].id] else []) + CandidateIds(actions[1..], axis)
  }

  const AXES: seq<Axis> := [Contract, Context, Implementation, Verification, Review]

  function Grid(p: Problem): seq<Cell> {
    seq(|AXES|, i requires 0 <= i < |AXES| =>
      Cell(AXES[i], p.start.At(AXES[i]), p.goal.At(AXES[i]), CandidateIds(p.actions, AXES[i])))
  }

  const FORMULA := "f = g + h + risk + friction - info_gain"

  datatype Report = Report(schemaVersion: int, reportOnly: bool, deterministic: bool, formula: string,
                           problem: Problem, heuristicAxes: seq<(Axis, nat)>, grid: seq<Cell>, frontier: Frontier,
                           candidates: seq<Path>, selected: Path)

  function ProblemOf(input: Input): Problem {
    Problem(NormalizeVec(input.start), NormalizeVec(input.goal), NormalizeActions(input.actions),
            NormalizeWeights(input.weights))
  }

  function BuildReport(input: Input): Report {
    var p := ProblemOf(input);
    var routes := NormalizeRoutes(p.actions, input.routes);
    var candidates := Candidates(p, routes);
    Report(1, true, true, FORMULA, p,
           seq(|AXES|, i requires 0 <= i < |AXES| => (AXES[i], AxisDebt(p.start, p.goal, AXES[i]))),
           Grid(p), Search(p).final, candidates, SelectPath(candidates, AStarPath(p, |routes|)))
  }

  datatype Issue = SchemaVersion | ReportOnly | Deterministic | ScoringFormula | HeuristicAxes | ConceptualGrid
                 | ExpandedOrder | CandidatePaths | SelectedPath | SelectedPathNotMinF

  /** `Math.min` of the totals; the empty minimum is infinite. */
  function MinTotal(paths: seq<Path>): Option<int> {
    if paths == [] then None
    else
      match MinTotal(paths[1..])
      case None => Some(paths[0].cost.f)
      case Some(m) => Some(if paths[0].cost.f <= m then paths[0].cost.f else m)
  }

  /** The issues recorded by one check of the validator. */
  function IssueUnless(ok: bool, issue: Issue): seq<Issue> { if ok then [] else [issue] }

  function Validate(r: Report): seq<Issue> {
    IssueUnless(r.schemaVersion == 1, SchemaVersion)
    + IssueUnless(r.reportOnly, ReportOnly)
    + IssueUnless(r.deterministic, Deterministic)
    + IssueUnless(r.formula == FORMULA, ScoringFormula)
    + IssueUnless(|r.heuristicAxes| == |AXES|, HeuristicAxes)
    + IssueUnless(|r.grid| >= 1, ConceptualGrid)
    + IssueUnless(|r.frontier.closed| >= 1, ExpandedOrder)
    + IssueUnless(|r.candidates| >= 1, CandidatePaths)
    + IssueUnless(r.selected.id != [], SelectedPath)
    + IssueUnless(MinTotal(r.candidates) == Some(r.selected.cost.f), SelectedPathNotMinF)
  }

  // ---- selection: what is chosen ----

  lemma IdLeIsOrder()
    ensures TotalPreorder(IdLe)
    ensures forall a, b :: IdLe(a, b) && IdLe(b, a) ==> a == b
  {
    forall a, b ensures IdLe(a, b) || IdLe(b, a) { LexTotal(a, b, Collation); }
    forall a, b, c | IdLe(a, b) && IdLe(b, c) ensures IdLe(a, c) { LexTransitive(a, b, c, Collation); }
    forall a, b | IdLe(a, b) && IdLe(b, a) ensures a == b { LexAntisymmetric(a, b, Collation); }
  }

  lemma PathLeIsOrder()
    ensures TotalPreorder(PathLe)
  {
    IdLeIsOrder();
    hide IdLe;
  }

  lemma {:induction false} CompleteOnlyMembers(paths: seq<Path>)
    ensures forall c :: c in CompleteOnly(paths) <==> c in paths && c.complete
  {
    if paths != [] {
      CompleteOnlyMembers(paths[1..]);
    }
  }

  lemma FirstIsLeast(paths: seq<Path>)
    requires paths != []
    ensures var s := SortBy(paths, PathLe);
            s != [] && s[0] in paths && forall c | c in paths :: s[0].cost.f <= c.cost.f
  {
    PathLeIsOrder();
    SortMembers(paths, PathLe);
    SortIsSorted(paths, PathLe);
    var s := SortBy(paths, PathLe);
    assert s[0] in s;
    forall c | c in paths ensures s[0].cost.f <= c.cost.f {
      var i :| 0 <= i < |s| && s[i] == c;
      assert i == 0 || PathLe(s[0], s[i]);
    }
  }

  /** What the selector returns from candidates that include the A* path:
      the least complete total when the A* path is complete; otherwise the better of the A* path and
      the least complete total; the least total of all when nothing is complete. */
  lemma SelectionMeaning(candidates: seq<Path>, astar: Path)
    requires astar in candidates
    ensures var s := SelectPath(candidates, astar);
            && s in candidates && s.cost.f <= astar.cost.f
            && (forall c | c in candidates && c.complete :: s.cost.f <= c.cost.f)
            && (s.complete || s == astar || forall c | c in candidates :: !c.complete)
            && (astar.complete ==> s.complete)
            && ((forall c | c in candidates :: !c.complete) ==> forall c | c in candidates :: s.cost.f <= c.cost.f)
  {
    CompleteOnlyMembers(candidates);
    var complete := CompleteOnly(candidates);
    if complete != [] {
      FirstIsLeast(complete);
      assert complete[0] in complete;
    } else {
      FirstIsLeast(candidates);
    }
  }

  lemma {:induction false} MinTotalMeaning(paths: seq<Path>, x: int)
    requires exists c :: c in paths && c.cost.f == x
    ensures MinTotal(paths) == Some(x) <==> forall c | c in paths :: x <= c.cost.f
  {
    if |paths| == 1 {
      assert MinTotal(paths[1..]) == None;
    } else if exists c :: c in paths[1..] && c.cost.f == x {
      MinTotalMeaning(paths[1..], x);
      assert forall c :: c in paths <==> c == paths[0] || c in paths[1..];
      MinTotalIsMember(paths[1..]);
    } else {
      assert paths[0].cost.f == x;
      MinTotalIsMember(paths[1..]);
      assert forall c :: c in paths <==> c == paths[0] || c in paths[1..];
    }
  }

  lemma {:induction false} MinTotalIsMember(paths: seq<Path>)
    requires paths != []
    ensures MinTotal(paths).Some?
    ensures exists c :: c in paths && c.cost.f == MinTotal(paths).value
    ensures forall c | c in paths :: MinTotal(paths).value <= c.cost.f
  {
    assert forall c :: c in paths <==> c == paths[0] || c in paths[1..];
    if |paths| > 1 {
      MinTotalIsMember(paths[1..]);
    }
  }

  lemma CandidatesIncludeAStar(p: Problem, routes: seq<RoutePath>)
    ensures AStarPath(p, |routes|) in Candidates(p, routes)
    ensures (forall r | r in routes :: r.id != []) ==> forall c | c in Candidates(p, routes) :: c.id != []
  {
    hide RoutePathResult, Search, PathLe;
    var all := RouteCandidates(p, routes) + [AStarPath(p, |routes|)];
    SortMembers(all, PathLe);
    assert all[|routes|] in all;
    if forall r | r in routes :: r.id != [] {
      forall c | c in Candidates(p, routes) ensures c.id != [] {
        var i :| 0 <= i < |all| && all[i] == c;
        if i < |routes| {
          RouteKeepsId(p, routes[i], i);
          assert routes[i] in routes;
        } else {
          assert c.id == ASTAR_ID;
        }
      }
    }
  }

  lemma RouteKeepsId(p: Problem, route: RoutePath, i: int)
    ensures RoutePathResult(p, route, i).id == route.id
  {
  }

  lemma {:induction false} RoutesHaveIds(actions: seq<Action>, raw: seq<RawRoute>, first: nat)
    ensures forall r | r in NormalizeEachRoute(actions, raw, first) :: r.id != []
  {
    hide SafeId, KnownIds;
    if raw != [] {
      RoutesHaveIds(actions, raw[1..], first + 1);
    }
  }

  lemma {:induction false} RunGrowsClosed(p: Problem, f: Frontier)
    ensures |f.closed| <= |Run(p, f).closed|
    decreases EXPANSION_CAP - |f.closed|
  {
    if Running(f) {
      ExpandGrowsClosed(p, f);
      RunGrowsClosed(p, Expand(p, f));
    }
  }

  lemma SearchExpandsStart(p: Problem)
    ensures |Search(p).final.closed| >= 1
  {
    ExpandGrowsClosed(p, Init(p));
    RunGrowsClosed(p, Expand(p, Init(p)));
    assert Run(p, Init(p)) == Run(p, Expand(p, Init(p)));
  }

  predicate HasCheaper(candidates: seq<Path>, selected: Path) {
    exists c :: c in candidates && c.cost.f < selected.cost.f
  }

  /** A freshly built report fails its own validation in one way only, and exactly when some
      candidate is strictly cheaper than the selected path. */
  lemma ValidatorVerdict(input: Input)
    ensures var r := BuildReport(input);
            Validate(r) == if HasCheaper(r.candidates, r.selected) then [SelectedPathNotMinF] else []
  {
    hide Search, SelectPath, Candidates, NormalizeEachRoute, NormalizeActions;
    var r := BuildReport(input);
    var p := r.problem;
    var routes := NormalizeRoutes(p.actions, input.routes);
    RoutesHaveIds(p.actions, input.routes, 0);
    SortMembers(NormalizeEachRoute(p.actions, input.routes, 0), RouteLe);
    CandidatesIncludeAStar(p, routes);
    SelectionMeaning(r.candidates, AStarPath(p, |routes|));
    SearchExpandsStart(p);
    MinTotalMeaning(r.candidates, r.selected.cost.f);
  }

  /** When the A* path is complete, the selected path is complete with the least total of the complete
      candidates, and the validator objects exactly when an incomplete candidate is strictly cheaper. */
  lemma CompleteSelection(input: Input)
    ensures var r := BuildReport(input);
            var routes := NormalizeRoutes(r.problem.actions, input.routes);
            AStarPath(r.problem, |routes|).complete ==>
              && r.selected in r.candidates && r.selected.complete
              && (forall c | c in r.candidates && c.complete :: r.selected.cost.f <= c.cost.f)
              && (SelectedPathNotMinF in Validate(r) <==>
                    exists c :: c in r.candidates && !c.complete && c.cost.f < r.selected.cost.f)
  {
    hide Search, SelectPath, Candidates, NormalizeRoutes, NormalizeActions, Validate;
    var r := BuildReport(input);
    var routes := NormalizeRoutes(r.problem.actions, input.routes);
    CandidatesIncludeAStar(r.problem, routes);
    SelectionMeaning(r.candidates, AStarPath(r.problem, |routes|));
    ValidatorVerdict(input);
  }

  /** When no candidate is complete the report always validates. */
  lemma IncompleteSelection(input: Input)
    ensures var r := BuildReport(input);
            (forall c | c in r.candidates :: !c.complete) ==> Validate(r) == []
  {
    hide Search, SelectPath, Candidates, NormalizeRoutes, NormalizeActions, Validate;
    var r := BuildReport(input);
    var routes := NormalizeRoutes(r.problem.actions, input.routes);
    CandidatesIncludeAStar(r.problem, routes);
    SelectionMeaning(r.candidates, AStarPath(r.problem, |routes|));
    ValidatorVerdict(input);
  }

  // ---- the report's own grid tells whether its A* path is complete ----

  lemma {:induction false} CandidateIdsMeaning(actions: seq<Action>, axis: Axis)
    ensures CandidateIds(actions, axis) != [] <==> exists a :: a in actions && a.delta.At(axis) > 0
  {
    if actions != [] {
      CandidateIdsMeaning(actions[1..], axis);
      assert forall a :: a in actions <==> a == actions[0] || a in actions[1..];
    }
  }

  lemma GridExplainsAStar(input: Input)
    ensures var r := BuildReport(input);
            r.problem.weights.proofDebt >= 0.0005 && |r.frontier.closed| < EXPANSION_CAP ==>
              (AStarPath(r.problem, 0).complete <==>
                 forall i | 0 <= i < |AXES| && r.heuristicAxes[i].1 > 0 :: r.grid[i].candidateActions != [])
  {
    hide Search, SelectPath, Candidates, NormalizeRoutes, NormalizeActions, Debt, AxisDebt, Run;
    var r := BuildReport(input);
    var p := r.problem;
    SearchKeepsClosed(p);
    if p.weights.proofDebt >= 0.0005 && |r.frontier.closed| < EXPANSION_CAP {
      GridPredictsCompleteness(p);
      forall i | 0 <= i < |AXES|
        ensures r.grid[i].candidateActions != [] <==> HasCandidate(p, AXES[i])
        ensures r.heuristicAxes[i].1 == AxisDebt(p.start, p.goal, AXES[i])
      {
        CandidateIdsMeaning(p.actions, AXES[i]);
      }
      assert AXES[0] == Contract && AXES[1] == Context && AXES[2] == Implementation
             && AXES[3] == Verification && AXES[4] == Review;
    }
  }

  lemma SearchKeepsClosed(p: Problem)
    ensures Search(p).final.closed == Final(p).closed
  {
  }

  // ---- the report does not depend on the order of the input lists ----

  ghost predicate ExplicitActionIds(raw: seq<RawAction>) {
    && (forall a | a in raw :: a.id != [])
    && forall a, b | a in raw && b in raw && SafeId(a.id) == SafeId(b.id) :: a == b
  }

  ghost predicate ExplicitRouteIds(raw: seq<RawRoute>) {
    && (forall r | r in raw :: r.id != [])
    && forall r, s | r in raw && s in raw && SafeId(r.id) == SafeId(s.id) :: r == s
  }

  function ExplicitAction(a: RawAction): Action { NormalizeAction(a, 0) }

  lemma {:induction false} ActionIndexIsUnused(raw: seq<RawAction>, first: nat)
    requires forall a | a in raw :: a.id != []
    ensures NormalizeEach(raw, first) == FilterMap(ExplicitAction, MovesSomeAxis, raw)
  {
    hide SafeId, NormalizeVec;
    if raw != [] {
      ActionIndexIsUnused(raw[1..], first + 1);
      assert raw[0] in raw;
    }
  }

  lemma ActionsIgnoreOrder(a: seq<RawAction>, b: seq<RawAction>)
    requires multiset(a) == multiset(b) && ExplicitActionIds(a)
    ensures NormalizeActions(a) == NormalizeActions(b)
  {
    hide SafeId, NormalizeVec, IdLe;
    forall x | x in b ensures x in a { assert x in multiset(b); }
    ActionIndexIsUnused(a, 0);
    ActionIndexIsUnused(b, 0);
    IdLeIsOrder();
    ArrangedIgnoresOrder(ExplicitAction, MovesSomeAxis, ActionLe, a, b);
  }

  lemma {:induction false} RouteIndexIsUnused(actions: seq<Action>, raw: seq<RawRoute>, first: nat)
    requires forall r | r in raw :: r.id != []
    ensures NormalizeEachRoute(actions, raw, first) == FilterMap(r => NormalizeRoute(actions, r, 0), HasActions, raw)
  {
    hide SafeId, KnownIds;
    if raw != [] {
      RouteIndexIsUnused(actions, raw[1..], first + 1);
      assert raw[0] in raw;
    }
  }

  lemma RoutesIgnoreOrder(actions: seq<Action>, a: seq<RawRoute>, b: seq<RawRoute>)
    requires multiset(a) == multiset(b) && ExplicitRouteIds(a)
    ensures NormalizeRoutes(actions, a) == NormalizeRoutes(actions, b)
  {
    hide SafeId, KnownIds, IdLe;
    forall x | x in b ensures x in a { assert x in multiset(b); }
    RouteIndexIsUnused(actions, a, 0);
    RouteIndexIsUnused(actions, b, 0);
    IdLeIsOrder();
    var f := (r: RawRoute) => NormalizeRoute(actions, r, 0);
    forall x, y | x in a && y in a && RouteLe(f(x), f(y)) && RouteLe(f(y), f(x)) ensures f(x) == f(y) {
      assert f(x).id == SafeId(x.id) && f(y).id == SafeId(y.id);
    }
    ArrangedIgnoresOrder(f, HasActions, RouteLe, a, b);
    assert NormalizeEachRoute(actions, a, 0) == FilterMap(f, HasActions, a);
    assert NormalizeEachRoute(actions, b, 0) == FilterMap(f, HasActions, b);
  }

  /** Reordering the supplied actions and route paths changes nothing in the report. */
  lemma ReportIgnoresOrder(a: Input, b: Input)
    requires a.start == b.start && a.goal == b.goal && a.weights == b.weights
    requires multiset(a.actions) == multiset(b.actions) && multiset(a.routes) == multiset(b.routes)
    requires ExplicitActionIds(a.actions) && ExplicitRouteIds(a.routes)
    ensures BuildReport(a) == BuildReport(b)
  {
    hide Search, SelectPath, Candidates, NormalizeRoutes, NormalizeActions, NormalizeVec, Grid;
    ActionsIgnoreOrder(a.actions, b.actions);
    RoutesIgnoreOrder(ProblemOf(a).actions, a.routes, b.routes);
  }
}
