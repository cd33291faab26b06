/** The budgeted, memoised search over the decision tree, by direct descent, and
    the plain count of the same tree. `SearchContext` runs this search by
    replaying every branch from the start; here it walks the tree itself. */
module TreeSearch {
  import opened Wrappers
  import opened EngineTree
  import opened ReplayProviders
  import opened Decimal
  import opened Numbers

  type U64 = n: nat | n <= U64_MAX
  const LOOP_END_EVENT := "decisionLoopTurnEndRequested"

  function SaturatingAdd(a: nat, b: nat): U64
  {
    if a + b <= U64_MAX then a + b else U64_MAX
  }

  function Clamp(n: nat): U64
  {
    if n <= U64_MAX then n else U64_MAX
  }

  datatype TreeCounts = TreeCounts(
    complete: bool, totalLeaves: nat, learnerWins: nat, opponentWins: nat, draws: nat,
    nextUntap: nat, turnLimit: nat, searchLimit: nat, safetyLimit: nat)
  {
    function Merge(other: TreeCounts): TreeCounts
    {
      TreeCounts(
        complete && other.complete,
        SaturatingAdd(totalLeaves, other.totalLeaves),
        SaturatingAdd(learnerWins, other.learnerWins),
        SaturatingAdd(opponentWins, other.opponentWins),
        SaturatingAdd(draws, other.draws),
        SaturatingAdd(nextUntap, other.nextUntap),
        SaturatingAdd(turnLimit, other.turnLimit),
        SaturatingAdd(searchLimit, other.searchLimit),
        SaturatingAdd(safetyLimit, other.safetyLimit))
    }

    /** The same counts without a 64-bit ceiling. */
    function Plus(other: TreeCounts): TreeCounts
    {
      TreeCounts(
        complete && other.complete, totalLeaves + other.totalLeaves, learnerWins + other.learnerWins,
        opponentWins + other.opponentWins, draws + other.draws, nextUntap + other.nextUntap,
        turnLimit + other.turnLimit, searchLimit + other.searchLimit, safetyLimit + other.safetyLimit)
    }

    /** Every counter cut off at 2^64 - 1. */
    function Clamped(): TreeCounts
    {
      TreeCounts(complete, Clamp(totalLeaves), Clamp(learnerWins), Clamp(opponentWins), Clamp(draws),
                 Clamp(nextUntap), Clamp(turnLimit), Clamp(searchLimit), Clamp(safetyLimit))
    }
  }

  const NO_LEAVES := TreeCounts(true, 0, 0, 0, 0, 0, 0, 0, 0)
  const SEARCH_LIMIT_LEAF := TreeCounts(false, 1, 0, 0, 0, 0, 0, 1, 0)

  function LeafCounts(learner: string, boundary: Boundary, winner: Option<string>, loopEnded: bool): TreeCounts
  {
    var n := TreeCounts(!loopEnded, 1, 0, 0, 0, 0, 0, 0, if loopEnded then 1 else 0);
    match boundary
    case Reached => n.(nextUntap := 1)
    case TurnLimitReached => n.(complete := false, turnLimit := 1)
    case GameEnded =>
      match winner
      case Some(w) => if w == learner then n.(learnerWins := 1) else n.(opponentWins := 1)
      case None => n.(draws := 1)
  }

  predicate LoopEnded(events: seq<string>, rootEventCount: nat)
  {
    exists i | rootEventCount <= i < |events| :: events[i] == LOOP_END_EVENT
  }

  // -------------------------------------------------------------- plain count

  /** The leaves of the whole tree, counted with no memo, no replay and no
      budget. `ended` says whether a loop-end event has already happened. */
  function PlainCount(learner: string, t: Tree, ended: bool): TreeCounts
    decreases t, if t.Decision? then |t.edges| + 1 else 0
  {
    match t
    case Leaf(boundary, winner, _) => LeafCounts(learner, boundary, winner, ended)
    case Crash(_) => NO_LEAVES
    case Decision(_, _) => PlainCountFrom(learner, t, ended, 0)
  }

  function PlainCountFrom(learner: string, t: Tree, ended: bool, i: nat): TreeCounts
    requires t.Decision? && i <= |t.edges|
    decreases t, |t.edges| - i
  {
    if i == |t.edges| then NO_LEAVES
    else PlainCount(learner, t.edges[i].next, ended || LoopEnded(t.edges[i].emitted, 0))
           .Plus(PlainCountFrom(learner, t, ended, i + 1))
  }

  // ------------------------------------------------------------------- search

  datatype Limits = Limits(maximumUniqueNodes: nat, maximumDepth: nat, maximumChoicesPerNode: nat)

  /** Everything `decision_node_key` feeds the hasher. */
  datatype KeyMaterial =
    KeyMaterial(stateText: string, decisionId: string, playerId: string, rng: int, depth: nat, labels: seq<string>)

  datatype Config = Config(learner: string, limits: Limits, hash: KeyMaterial -> int)

  function Label(c: ScriptedChoice): string
  {
    match c
    case Action(_, actionId) => actionId
    case Number(_, value) => if value < 0 then "-" + Digits(-value) else Digits(value)
  }

  function Labels(cs: seq<ScriptedChoice>): seq<string>
  {
    seq(|cs|, i requires 0 <= i < |cs| => Label(cs[i]))
  }

  function NodeKey(cfg: Config, p: Point, depth: nat): int
  {
    cfg.hash(KeyMaterial(p.stateText, p.decisionId, p.playerId, p.rng, depth, Labels(Choices(p))))
  }

  datatype RootChoiceReport = RootChoiceReport(
    choice: ScriptedChoice, complete: bool, totalLeaves: nat, learnerWins: nat, opponentWins: nat,
    draws: nat, nextUntap: nat, searchLimit: nat, safetyLimit: nat)

  function Report(choice: ScriptedChoice, c: TreeCounts): RootChoiceReport
  {
    RootChoiceReport(choice, c.complete, c.totalLeaves, c.learnerWins, c.opponentWins, c.draws,
                     c.nextUntap, c.searchLimit, c.safetyLimit)
  }

  /** The mutable part of a search. `leafVisits` and `limitStops` are kept only
      to state how the other counters add up. */
  datatype Search = Search(
    memo: map<int, TreeCounts>, replayRuns: U64, uniqueNodes: U64, expandedEdges: U64, transpositionHits: U64,
    maximumObservedDepth: nat, rootEventCount: nat, rootPoint: Option<Point>, rootChoices: seq<RootChoiceReport>,
    winningBranch: Option<seq<ScriptedChoice>>, leafVisits: nat, limitStops: nat)

  const FRESH_SEARCH := Search(map[], 0, 0, 0, 0, 0, 0, None, [], None, 0, 0)

  type Explored = Result<(Search, TreeCounts), string>

  function SearchError(message: string): string
  {
    if message == SEARCH_BRANCH_SIGNAL then NO_PENDING_DECISION else message
  }

  function AfterReplay(s: Search, depth: nat): Search
  {
    s.(maximumObservedDepth := if depth > s.maximumObservedDepth then depth else s.maximumObservedDepth,
       replayRuns := SaturatingAdd(s.replayRuns, 1))
  }

  function AfterLeaf(cfg: Config, s: Search, boundary: Boundary, winner: Option<string>,
                     branch: seq<ScriptedChoice>): Search
  {
    s.(leafVisits := s.leafVisits + 1,
       winningBranch := if boundary.GameEnded? && winner == Some(cfg.learner) && s.winningBranch.None? then Some(branch)
                        else s.winningBranch)
  }

  function AtRoot(s: Search, p: Point, events: seq<string>, branch: seq<ScriptedChoice>): Search
  {
    if s.rootPoint.None? && branch == [] then s.(rootEventCount := |events|, rootPoint := Some(p)) else s
  }

  predicate OverBudget(cfg: Config, s: Search, p: Point, branch: seq<ScriptedChoice>)
  {
    || |branch| >= cfg.limits.maximumDepth
    || |Choices(p)| > cfg.limits.maximumChoicesPerNode
    || s.uniqueNodes >= cfg.limits.maximumUniqueNodes
  }

  function Expanding(s: Search, p: Point): Search
  {
    s.(uniqueNodes := SaturatingAdd(s.uniqueNodes, 1),
       expandedEdges := SaturatingAdd(s.expandedEdges, |Choices(p)|))
  }

  function Reported(s: Search, branch: seq<ScriptedChoice>, choice: ScriptedChoice, c: TreeCounts): Search
  {
    if branch == [] then s.(rootChoices := s.rootChoices + [Report(choice, c)]) else s
  }

  function Explore(cfg: Config, s: Search, t: Tree, events: seq<string>, branch: seq<ScriptedChoice>): Explored
    requires Shaped(t)
    decreases t, if t.Decision? then |t.edges| + 2 else 0
  {
    var s := AfterReplay(s, |branch|);
    match t
    case Crash(message) => Failure(SearchError(message))
    case Leaf(boundary, winner, _) =>
      Success((AfterLeaf(cfg, s, boundary, winner, branch),
               LeafCounts(cfg.learner, boundary, winner, LoopEnded(events, s.rootEventCount))))
    case Decision(p, edges) =>
      if p.request == NumberRange(None) then Failure(NOT_A_NUMBER)
      else Visit(cfg, AtRoot(s, p, events, branch), t, events, branch)
  }

  /** An open decision: out of budget, already in the memo, or expanded. */
  function Visit(cfg: Config, s: Search, t: Tree, events: seq<string>, branch: seq<ScriptedChoice>): Explored
    requires Shaped(t) && t.Decision?
    decreases t, |t.edges| + 1
  {
    var key := NodeKey(cfg, t.point, |branch|);
    if OverBudget(cfg, s, t.point, branch) then Success((s.(limitStops := s.limitStops + 1), SEARCH_LIMIT_LEAF))
    else if key in s.memo then Success((s.(transpositionHits := SaturatingAdd(s.transpositionHits, 1)), s.memo[key]))
    else match ExploreFrom(cfg, Expanding(s, t.point), t, events, branch, 0, NO_LEAVES)
         case Failure(e) => Failure(e)
         case Success(r) => Success((r.0.(memo := r.0.memo[key := r.1]), r.1))
  }

  function ExploreFrom(cfg: Config, s: Search, t: Tree, events: seq<string>, branch: seq<ScriptedChoice>,
                       i: nat, totals: TreeCounts): Explored
    requires Shaped(t) && t.Decision? && i <= |t.edges|
    decreases t, |t.edges| - i
  {
    if i == |t.edges| then Success((s, totals)) else
    var choice := Choices(t.point)[i];
    match Explore(cfg, s, t.edges[i].next, events + t.edges[i].emitted, branch + [choice])
    case Failure(e) => Failure(e)
    case Success(r) =>
      ExploreFrom(cfg, Reported(r.0, branch, choice, r.1), t, events, branch, i + 1, totals.Merge(r.1))
  }
}
