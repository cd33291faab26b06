/** What the counters of a search count: the ways through the tree that end in a
    leaf of each kind. */
module SearchCounts {
  import opened Wrappers
  import opened EngineTree
  import opened TreeSearch
  import opened SearchProofs
  import opened SearchWitness
  import opened Numbers
  import opened Decimal

  /** The kinds of leaves, one for each counter. */
  datatype Kind = Leaves | LearnerWins | OpponentWins | Draws | NextUntap | TurnLimit | SafetyLimit

  function Counter(c: TreeCounts, kind: Kind): nat
  {
    match kind
    case Leaves => c.totalLeaves
    case LearnerWins => c.learnerWins
    case OpponentWins => c.opponentWins
    case Draws => c.draws
    case NextUntap => c.nextUntap
    case TurnLimit => c.turnLimit
    case SafetyLimit => c.safetyLimit
  }

  /** The events emitted on the way along a path. */
  function EventsAlong(t: Tree, path: seq<nat>): seq<string>
    requires Follow(t, path).Some?
    decreases path
  {
    if path == [] then [] else t.edges[path[0]].emitted + EventsAlong(t.edges[path[0]].next, path[1..])
  }

  /** The path ends in a leaf of that kind. `ended` says whether a loop-end event
      has happened before it begins. */
  predicate EndsIn(learner: string, kind: Kind, t: Tree, ended: bool, path: seq<nat>)
  {
    && Follow(t, path).Some?
    && Follow(t, path).value.Leaf?
    && var leaf := Follow(t, path).value;
       match kind
       case Leaves => true
       case LearnerWins => leaf.boundary.GameEnded? && leaf.winner == Some(learner)
       case OpponentWins => leaf.boundary.GameEnded? && leaf.winner.Some? && leaf.winner.value != learner
       case Draws => leaf.boundary.GameEnded? && leaf.winner.None?
       case NextUntap => leaf.boundary.Reached?
       case TurnLimit => leaf.boundary.TurnLimitReached?
       case SafetyLimit => ended || LOOP_END_EVENT in EventsAlong(t, path)
  }

  /** There are exactly n paths that end so. */
  ghost predicate ThereAre(n: nat, learner: string, kind: Kind, t: Tree, ended: bool)
  {
    exists paths: set<seq<nat>> ::
      |paths| == n && forall path :: path in paths <==> EndsIn(learner, kind, t, ended, path)
  }

  function Paths(learner: string, kind: Kind, t: Tree, ended: bool): set<seq<nat>>
    decreases t, if t.Decision? then |t.edges| + 1 else 0
  {
    match t
    case Leaf(_, _, _) => if EndsIn(learner, kind, t, ended, []) then {[]} else {}
    case Crash(_) => {}
    case Decision(_, _) => PathsFrom(learner, kind, t, ended, 0)
  }

  /** Those that begin with the i-th edge or a later one. */
  function PathsFrom(learner: string, kind: Kind, t: Tree, ended: bool, i: nat): set<seq<nat>>
    requires t.Decision? && i <= |t.edges|
    decreases t, |t.edges| - i
  {
    if i == |t.edges| then {}
    else Prepended(i, Paths(learner, kind, t.edges[i].next, ended || LoopEnded(t.edges[i].emitted, 0)))
         + PathsFrom(learner, kind, t, ended, i + 1)
  }

  function Prepended(i: nat, paths: set<seq<nat>>): set<seq<nat>>
  {
    set path | path in paths :: [i] + path
  }

  lemma {:induction false} PrependedSize(i: nat, paths: set<seq<nat>>)
    ensures |Prepended(i, paths)| == |paths|
  {
    if paths != {} {
      var path :| path in paths;
      var rest := paths - {path};
      PrependedSize(i, rest);
      assert Prepended(i, paths) == Prepended(i, rest) + {[i] + path};
      assert forall other | other in rest :: ([i] + other)[1..] == other;
      assert ([i] + path)[1..] == path;
      assert [i] + path !in Prepended(i, rest);
    }
  }

  lemma PrependedHas(i: nat, paths: set<seq<nat>>, path: seq<nat>)
    ensures path in Prepended(i, paths) <==> path != [] && path[0] == i && path[1..] in paths
  {
    if path != [] {
      assert path == [path[0]] + path[1..];
    }
    forall other | other in paths && path == [i] + other
      ensures path[1..] == other
    {
    }
  }

  lemma LoopEndedIff(events: seq<string>)
    ensures LoopEnded(events, 0) <==> LOOP_END_EVENT in events
  {
  }

  /** One edge further down, the kind of the end is the same. */
  lemma EndsBelow(learner: string, kind: Kind, t: Tree, ended: bool, path: seq<nat>)
    requires t.Decision? && path != [] && path[0] < |t.edges|
    ensures var edge := t.edges[path[0]];
            EndsIn(learner, kind, t, ended, path)
            <==> EndsIn(learner, kind, edge.next, ended || LoopEnded(edge.emitted, 0), path[1..])
  {
    LoopEndedIff(t.edges[path[0]].emitted);
  }

  lemma {:induction false} PathsAreThose(learner: string, kind: Kind, t: Tree, ended: bool, path: seq<nat>)
    ensures path in Paths(learner, kind, t, ended) <==> EndsIn(learner, kind, t, ended, path)
    decreases t, if t.Decision? then |t.edges| + 1 else 0
  {
    if t.Decision? {
      PathsFromAreThose(learner, kind, t, ended, path, 0);
    }
  }

  lemma {:induction false} PathsFromAreThose(learner: string, kind: Kind, t: Tree, ended: bool, path: seq<nat>, i: nat)
    requires t.Decision? && i <= |t.edges|
    ensures path in PathsFrom(learner, kind, t, ended, i)
            <==> path != [] && i <= path[0] && EndsIn(learner, kind, t, ended, path)
    decreases t, |t.edges| - i
  {
    if i < |t.edges| {
      var next, ended' := t.edges[i].next, ended || LoopEnded(t.edges[i].emitted, 0);
      PrependedHas(i, Paths(learner, kind, next, ended'), path);
      PathsFromAreThose(learner, kind, t, ended, path, i + 1);
      if path != [] && path[0] == i {
        PathsAreThose(learner, kind, next, ended', path[1..]);
        EndsBelow(learner, kind, t, ended, path);
      }
    }
  }

  lemma CountersAdd(a: TreeCounts, b: TreeCounts, kind: Kind)
    ensures Counter(a.Plus(b), kind) == Counter(a, kind) + Counter(b, kind)
  {
  }

  lemma {:induction false} CounterIsSize(learner: string, kind: Kind, t: Tree, ended: bool)
    ensures Counter(PlainCount(learner, t, ended), kind) == |Paths(learner, kind, t, ended)|
    decreases t, if t.Decision? then |t.edges| + 1 else 0
  {
    if t.Decision? {
      CounterFromIsSize(learner, kind, t, ended, 0);
    }
  }

  lemma {:induction false} CounterFromIsSize(learner: string, kind: Kind, t: Tree, ended: bool, i: nat)
    requires t.Decision? && i <= |t.edges|
    ensures Counter(PlainCountFrom(learner, t, ended, i), kind) == |PathsFrom(learner, kind, t, ended, i)|
    decreases t, |t.edges| - i
  {
    if i < |t.edges| {
      var next, ended' := t.edges[i].next, ended || LoopEnded(t.edges[i].emitted, 0);
      var here, rest := Prepended(i, Paths(learner, kind, next, ended')), PathsFrom(learner, kind, t, ended, i + 1);
      CounterIsSize(learner, kind, next, ended');
      CounterFromIsSize(learner, kind, t, ended, i + 1);
      CountersAdd(PlainCount(learner, next, ended'), PlainCountFrom(learner, t, ended, i + 1), kind);
      PrependedSize(i, Paths(learner, kind, next, ended'));
      forall path | path in here
        ensures path !in rest
      {
        PrependedHas(i, Paths(learner, kind, next, ended'), path);
        PathsFromAreThose(learner, kind, t, ended, path, i + 1);
      }
      assert here !! rest;
    }
  }

  /** Each counter of the plain count is the number of paths to a leaf of its kind. */
  lemma CountersCountPaths(learner: string, kind: Kind, t: Tree, ended: bool)
    ensures ThereAre(Counter(PlainCount(learner, t, ended), kind), learner, kind, t, ended)
  {
    var paths := Paths(learner, kind, t, ended);
    CounterIsSize(learner, kind, t, ended);
    forall path
      ensures path in paths <==> EndsIn(learner, kind, t, ended, path)
    {
      PathsAreThose(learner, kind, t, ended, path);
    }
  }

  /** The main result on counts, said of the tree itself: a search that met no
      search limit reports, for each kind of leaf, the number of paths that end so,
      or 2^64 - 1 if there are more. */
  lemma SearchCountsPaths(cfg: Config, root: Tree, rootEvents: seq<string>, past: bool, kind: Kind)
    requires root.Decision? && Sound(cfg, root, rootEvents, past) && (kind.SafetyLimit? ==> past)
    requires Explore(cfg, FRESH_SEARCH, root, rootEvents, []).Success?
    requires Explore(cfg, FRESH_SEARCH, root, rootEvents, []).value.1.searchLimit == 0
    ensures var c := Explore(cfg, FRESH_SEARCH, root, rootEvents, []).value.1;
            exists n: nat ::
              && ThereAre(n, cfg.learner, kind, root, false)
              && Counter(c, kind) == if n < 0x1_0000_0000_0000_0000 then n else 0xFFFF_FFFF_FFFF_FFFF
  {
    SearchCountsTheTree(cfg, root, rootEvents, past);
    CountersCountPaths(cfg.learner, kind, root, false);
    assert ThereAre(Counter(PlainCount(cfg.learner, root, false), kind), cfg.learner, kind, root, false);
  }

  // ------------------------------------------------------------ within the budgets

  /** How many decisions a tree has. */
  function Decisions(t: Tree): nat
    decreases t, if t.Decision? then |t.edges| + 1 else 0
  {
    if t.Decision? then 1 + DecisionsFrom(t, 0) else 0
  }

  function DecisionsFrom(t: Tree, i: nat): nat
    requires t.Decision? && i <= |t.edges|
    decreases t, |t.edges| - i
  {
    if i == |t.edges| then 0 else Decisions(t.edges[i].next) + DecisionsFrom(t, i + 1)
  }

  /** No decision lies too deep or offers too much; `depth` is that of the tree's top. */
  predicate Fits(limits: Limits, t: Tree, depth: nat)
  {
    t.Decision? ==>
      && depth < limits.maximumDepth && |t.edges| <= limits.maximumChoicesPerNode
      && forall i | 0 <= i < |t.edges| :: Fits(limits, t.edges[i].next, depth + 1)
  }

  ghost predicate NoLimitIn(memo: map<int, TreeCounts>)
  {
    forall k | k in memo :: memo[k].searchLimit == 0
  }

  lemma {:induction false} BudgetsSuffice(cfg: Config, s: Search, t: Tree, events: seq<string>,
                                          branch: seq<ScriptedChoice>)
    requires Shaped(t) && Explore(cfg, s, t, events, branch).Success? && NoLimitIn(s.memo)
    requires Fits(cfg.limits, t, |branch|) && s.uniqueNodes + Decisions(t) <= cfg.limits.maximumUniqueNodes
    ensures var (s', c) := Explore(cfg, s, t, events, branch).value;
            c.searchLimit == 0 && NoLimitIn(s'.memo) && s'.uniqueNodes <= s.uniqueNodes + Decisions(t)
    decreases t, if t.Decision? then |t.edges| + 1 else 0
  {
    if t.Decision? {
      var s1 := AtRoot(AfterReplay(s, |branch|), t.point, events, branch);
      if NodeKey(cfg, t.point, |branch|) !in s1.memo {
        BudgetsSufficeFrom(cfg, Expanding(s1, t.point), t, events, branch, 0, NO_LEAVES);
      }
    }
  }

  lemma {:induction false} BudgetsSufficeFrom(cfg: Config, s: Search, t: Tree, events: seq<string>,
                                              branch: seq<ScriptedChoice>, i: nat, totals: TreeCounts)
    requires Shaped(t) && t.Decision? && i <= |t.edges| && NoLimitIn(s.memo) && totals.searchLimit == 0
    requires ExploreFrom(cfg, s, t, events, branch, i, totals).Success? && Fits(cfg.limits, t, |branch|)
    requires s.uniqueNodes + DecisionsFrom(t, i) <= cfg.limits.maximumUniqueNodes
    ensures var (s', c) := ExploreFrom(cfg, s, t, events, branch, i, totals).value;
            c.searchLimit == 0 && NoLimitIn(s'.memo) && s'.uniqueNodes <= s.uniqueNodes + DecisionsFrom(t, i)
    decreases t, |t.edges| - i
  {
    if i < |t.edges| {
      var choice := Choices(t.point)[i];
      BudgetsSuffice(cfg, s, t.edges[i].next, events + t.edges[i].emitted, branch + [choice]);
      var (s1, c) := Explore(cfg, s, t.edges[i].next, events + t.edges[i].emitted, branch + [choice]).value;
      BudgetsSufficeFrom(cfg, Reported(s1, branch, choice, c), t, events, branch, i + 1, totals.Merge(c));
    }
  }

  /** A tree within all three budgets is searched without meeting a search limit. */
  lemma SearchFitsItsBudgets(cfg: Config, root: Tree, rootEvents: seq<string>)
    requires Shaped(root) && Explore(cfg, FRESH_SEARCH, root, rootEvents, []).Success?
    requires Fits(cfg.limits, root, 0) && Decisions(root) <= cfg.limits.maximumUniqueNodes
    ensures Explore(cfg, FRESH_SEARCH, root, rootEvents, []).value.1.searchLimit == 0
  {
    BudgetsSuffice(cfg, FRESH_SEARCH, root, rootEvents, []);
  }

  /** Branches with one key lead to one continuation, at one depth. */
  ghost predicate OnePlace(cfg: Config, root: Tree, rootEvents: seq<string>, a: seq<ScriptedChoice>,
                           b: seq<ScriptedChoice>)
    requires Shaped(root)
  {
    KeyAt(cfg, root, rootEvents, a).Some? && KeyAt(cfg, root, rootEvents, a) == KeyAt(cfg, root, rootEvents, b) ==>
      FutureAt(root, rootEvents, a) == FutureAt(root, rootEvents, b) && |a| == |b|
  }

  /** Memo hypothesis: so do all. */
  ghost predicate KeysFixPlace(cfg: Config, root: Tree, rootEvents: seq<string>)
    requires Shaped(root)
  {
    forall a, b :: OnePlace(cfg, root, rootEvents, a, b)
  }

  /** What is stored for a branch without a search limit was within the limits. */
  ghost predicate StoredFits(cfg: Config, root: Tree, rootEvents: seq<string>, memo: map<int, TreeCounts>,
                             b: seq<ScriptedChoice>)
    requires Shaped(root)
  {
    var key := KeyAt(cfg, root, rootEvents, b);
    key.Some? && key.value in memo && memo[key.value].searchLimit == 0 ==>
      Fits(cfg.limits, FutureAt(root, rootEvents, b), |b|)
  }

  ghost predicate MemoFits(cfg: Config, root: Tree, rootEvents: seq<string>, memo: map<int, TreeCounts>)
    requires Shaped(root)
  {
    forall b :: StoredFits(cfg, root, rootEvents, memo, b)
  }

  lemma StoreKeepsMemoFits(cfg: Config, root: Tree, rootEvents: seq<string>, memo: map<int, TreeCounts>,
                           branch: seq<ScriptedChoice>, c: TreeCounts)
    requires Shaped(root) && KeysFixPlace(cfg, root, rootEvents) && MemoFits(cfg, root, rootEvents, memo)
    requires KeyAt(cfg, root, rootEvents, branch).Some?
    requires c.searchLimit == 0 ==> Fits(cfg.limits, FutureAt(root, rootEvents, branch), |branch|)
    ensures MemoFits(cfg, root, rootEvents, memo[KeyAt(cfg, root, rootEvents, branch).value := c])
  {
    var after := memo[KeyAt(cfg, root, rootEvents, branch).value := c];
    forall b
      ensures StoredFits(cfg, root, rootEvents, after, b)
    {
      assert StoredFits(cfg, root, rootEvents, memo, b) && OnePlace(cfg, root, rootEvents, branch, b);
    }
  }

  lemma {:induction false} SearchedFits(cfg: Config, root: Tree, rootEvents: seq<string>, s: Search, t: Tree,
                                        events: seq<string>, branch: seq<ScriptedChoice>)
    requires Shaped(root) && RepeatsAgree(root) && KeysFixPlace(cfg, root, rootEvents)
    requires MemoFits(cfg, root, rootEvents, s.memo) && Descend(root, rootEvents, branch) == Some((t, events))
    requires Explore(cfg, s, t, events, branch).Success?
    ensures var (s', c) := Explore(cfg, s, t, events, branch).value;
            MemoFits(cfg, root, rootEvents, s'.memo) && (c.searchLimit == 0 ==> Fits(cfg.limits, t, |branch|))
    decreases t, if t.Decision? then 2 * |t.edges| + 2 else 0
  {
    if t.Decision? {
      var s1, key := AtRoot(AfterReplay(s, |branch|), t.point, events, branch), NodeKey(cfg, t.point, |branch|);
      assert KeyAt(cfg, root, rootEvents, branch) == Some(key);
      assert StoredFits(cfg, root, rootEvents, s.memo, branch);
      if !OverBudget(cfg, s1, t.point, branch) && key !in s1.memo {
        var (s2, c) := ExploreFrom(cfg, Expanding(s1, t.point), t, events, branch, 0, NO_LEAVES).value;
        SearchedFitsFrom(cfg, root, rootEvents, Expanding(s1, t.point), t, events, branch, 0, NO_LEAVES, (s2, c));
        StoreKeepsMemoFits(cfg, root, rootEvents, s2.memo, branch, c);
      }
    }
  }

  /** From the i-th edge on; `r` is what the search makes of it. */
  lemma {:induction false} SearchedFitsFrom(cfg: Config, root: Tree, rootEvents: seq<string>, s: Search, t: Tree,
                                            events: seq<string>, branch: seq<ScriptedChoice>, i: nat,
                                            totals: TreeCounts, r: (Search, TreeCounts))
    requires Shaped(t) && Shaped(root) && RepeatsAgree(root) && KeysFixPlace(cfg, root, rootEvents)
    requires MemoFits(cfg, root, rootEvents, s.memo) && Descend(root, rootEvents, branch) == Some((t, events))
    requires t.Decision? && i <= |t.edges| && ExploreFrom(cfg, s, t, events, branch, i, totals) == Success(r)
    ensures MemoFits(cfg, root, rootEvents, r.0.memo)
    ensures r.1.searchLimit == 0 ==> totals.searchLimit == 0 && EdgesFit(cfg.limits, t, |branch|, i)
    decreases t, 2 * (|t.edges| - i) + 1
  {
    if i == |t.edges| {
      NoEdgeLeft(cfg, s, t, events, branch, totals, NO_LEAVES, r);
    } else {
      SearchedFitsFromNext(cfg, root, rootEvents, s, t, events, branch, i, totals, r);
    }
  }

  lemma {:induction false} SearchedFitsFromNext(cfg: Config, root: Tree, rootEvents: seq<string>, s: Search, t: Tree,
                                                events: seq<string>, branch: seq<ScriptedChoice>, i: nat,
                                                totals: TreeCounts, r: (Search, TreeCounts))
    requires Shaped(t) && Shaped(root) && RepeatsAgree(root) && KeysFixPlace(cfg, root, rootEvents)
    requires MemoFits(cfg, root, rootEvents, s.memo) && Descend(root, rootEvents, branch) == Some((t, events))
    requires t.Decision? && i < |t.edges| && ExploreFrom(cfg, s, t, events, branch, i, totals) == Success(r)
    ensures MemoFits(cfg, root, rootEvents, r.0.memo)
    ensures r.1.searchLimit == 0 ==> totals.searchLimit == 0 && EdgesFit(cfg.limits, t, |branch|, i)
    decreases t, 2 * (|t.edges| - i)
  {
    var s2, sum := SearchedEdge(cfg, root, rootEvents, s, t, events, branch, i, totals, r);
    EdgesFitFrom(cfg.limits, t, |branch|, i);
    SearchedFitsFrom(cfg, root, rootEvents, s2, t, events, branch, i + 1, sum, r);
  }

  lemma {:induction false} SearchedEdge(cfg: Config, root: Tree, rootEvents: seq<string>, s: Search, t: Tree,
                                        events: seq<string>, branch: seq<ScriptedChoice>, i: nat, totals: TreeCounts,
                                        r: (Search, TreeCounts))
    returns (s2: Search, sum: TreeCounts)
    requires Shaped(t) && Shaped(root) && RepeatsAgree(root) && KeysFixPlace(cfg, root, rootEvents)
    requires MemoFits(cfg, root, rootEvents, s.memo) && Descend(root, rootEvents, branch) == Some((t, events))
    requires t.Decision? && i < |t.edges| && ExploreFrom(cfg, s, t, events, branch, i, totals) == Success(r)
    ensures ExploreFrom(cfg, s2, t, events, branch, i + 1, sum) == Success(r)
    ensures MemoFits(cfg, root, rootEvents, s2.memo)
    ensures sum.searchLimit == 0 ==> totals.searchLimit == 0 && Fits(cfg.limits, t.edges[i].next, |branch| + 1)
    decreases t, 2 * (|t.edges| - i) - 1
  {
    var choice := Choices(t.point)[i];
    ChildBranch(root, rootEvents, t, events, branch, i);
    OneEdgeFurther(cfg, s, t, events, branch, i, totals);
    SearchedFits(cfg, root, rootEvents, s, t.edges[i].next, events + t.edges[i].emitted, branch + [choice]);
    var (s1, c) := Explore(cfg, s, t.edges[i].next, events + t.edges[i].emitted, branch + [choice]).value;
    s2, sum := Reported(s1, branch, choice, c), totals.Merge(c);
    MergedLimits(totals, c);
  }

  /** From the i-th edge on, all lead to trees within the limits. */
  predicate EdgesFit(limits: Limits, t: Tree, depth: nat, i: nat)
    requires t.Decision?
  {
    forall j | i <= j < |t.edges| :: Fits(limits, t.edges[j].next, depth + 1)
  }

  lemma EdgesFitFrom(limits: Limits, t: Tree, depth: nat, i: nat)
    requires t.Decision? && i < |t.edges|
    ensures EdgesFit(limits, t, depth, i)
            <==> Fits(limits, t.edges[i].next, depth + 1) && EdgesFit(limits, t, depth, i + 1)
  {
  }

  lemma MergedLimits(a: TreeCounts, b: TreeCounts)
    ensures a.Merge(b).searchLimit == 0 <==> a.searchLimit == 0 && b.searchLimit == 0
  {
  }

  /** With room for all its nodes, a search meets a search limit if and only if some
      decision of the tree lies too deep or offers too many choices. */
  lemma SearchMeetsLimitIff(cfg: Config, root: Tree, rootEvents: seq<string>)
    requires Shaped(root) && RepeatsAgree(root) && KeysFixPlace(cfg, root, rootEvents)
    requires Explore(cfg, FRESH_SEARCH, root, rootEvents, []).Success?
    requires Decisions(root) <= cfg.limits.maximumUniqueNodes
    ensures Explore(cfg, FRESH_SEARCH, root, rootEvents, []).value.1.searchLimit > 0 <==> !Fits(cfg.limits, root, 0)
  {
    SearchedFits(cfg, root, rootEvents, FRESH_SEARCH, root, rootEvents, []);
    if Fits(cfg.limits, root, 0) {
      SearchFitsItsBudgets(cfg, root, rootEvents);
    }
  }

  /** The text of a number is its own: labels tell choices of one kind apart. */
  lemma LabelsIdentify(c: ScriptedChoice, d: ScriptedChoice)
    requires c.decisionId == d.decisionId && (c.Action? <==> d.Action?) && Label(c) == Label(d)
    ensures c == d
  {
    if c.Number? {
      DigitsFaithful(if c.value < 0 then -c.value else c.value);
      DigitsFaithful(if d.value < 0 then -d.value else d.value);
      if c.value < 0 {
        assert Label(c)[0] == '-' && Label(c)[1..] == Digits(-c.value);
      }
      if d.value < 0 {
        assert Label(d)[0] == '-' && Label(d)[1..] == Digits(-d.value);
      }
    }
  }

  /** Under a hash without collisions, decisions with one key agree in everything
      that identifies them: state, ids, random generator, depth, labels of choices. */
  lemma KeysIdentify(cfg: Config, p: Point, depth: nat, q: Point, other: nat)
    requires forall a, b | cfg.hash(a) == cfg.hash(b) :: a == b
    requires NodeKey(cfg, p, depth) == NodeKey(cfg, q, other)
    ensures p.stateText == q.stateText && p.decisionId == q.decisionId && p.playerId == q.playerId && p.rng == q.rng
    ensures depth == other && |Choices(p)| == |Choices(q)|
    ensures forall i | 0 <= i < |Choices(p)| :: Label(Choices(p)[i]) == Label(Choices(q)[i])
  {
    var a := KeyMaterial(p.stateText, p.decisionId, p.playerId, p.rng, depth, Labels(Choices(p)));
    var b := KeyMaterial(q.stateText, q.decisionId, q.playerId, q.rng, other, Labels(Choices(q)));
    assert a == b;
    assert |a.labels| == |b.labels|;
    forall i | 0 <= i < |Choices(p)|
      ensures Label(Choices(p)[i]) == Label(Choices(q)[i])
    {
      assert a.labels[i] == Label(Choices(p)[i]) && b.labels[i] == Label(Choices(q)[i]);
    }
  }
}
