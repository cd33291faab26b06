/** What the budgeted, memoised search gets right about the tree. */
module SearchProofs {
  import opened Wrappers
  import opened EngineTree
  import opened ReplayProviders
  import opened TreeSearch
  import opened Numbers

  // --------------------------------------------------- completeness flag

  /** `complete` says that none of the three limits was met. */
  predicate FlagOk(c: TreeCounts)
  {
    c.complete <==> c.turnLimit == 0 && c.searchLimit == 0 && c.safetyLimit == 0
  }

  ghost predicate FlagsOk(memo: map<int, TreeCounts>)
  {
    forall k | k in memo :: FlagOk(memo[k])
  }

  lemma {:induction false} CompleteMeansNoLimit(cfg: Config, s: Search, t: Tree, events: seq<string>,
                                                branch: seq<ScriptedChoice>)
    requires Shaped(t) && FlagsOk(s.memo) && Explore(cfg, s, t, events, branch).Success?
    ensures var (s', c) := Explore(cfg, s, t, events, branch).value; FlagsOk(s'.memo) && FlagOk(c)
    decreases t, if t.Decision? then |t.edges| + 1 else 0
  {
    if t.Decision? {
      var s1 := AtRoot(AfterReplay(s, |branch|), t.point, events, branch);
      if !OverBudget(cfg, s1, t.point, branch) && NodeKey(cfg, t.point, |branch|) !in s1.memo {
        CompleteMeansNoLimitFrom(cfg, Expanding(s1, t.point), t, events, branch, 0, NO_LEAVES);
      }
    }
  }

  lemma {:induction false} CompleteMeansNoLimitFrom(cfg: Config, s: Search, t: Tree, events: seq<string>,
                                                    branch: seq<ScriptedChoice>, i: nat, totals: TreeCounts)
    requires Shaped(t) && t.Decision? && i <= |t.edges| && FlagsOk(s.memo) && FlagOk(totals)
    requires ExploreFrom(cfg, s, t, events, branch, i, totals).Success?
    ensures var (s', c) := ExploreFrom(cfg, s, t, events, branch, i, totals).value; FlagsOk(s'.memo) && FlagOk(c)
    decreases t, |t.edges| - i
  {
    if i < |t.edges| {
      var choice := Choices(t.point)[i];
      CompleteMeansNoLimit(cfg, s, t.edges[i].next, events + t.edges[i].emitted, branch + [choice]);
      var (s1, c) := Explore(cfg, s, t.edges[i].next, events + t.edges[i].emitted, branch + [choice]).value;
      CompleteMeansNoLimitFrom(cfg, Reported(s1, branch, choice, c), t, events, branch, i + 1, totals.Merge(c));
    }
  }

  // ----------------------------------------------------------- accounting

  /** None of the run's counters has reached its ceiling. */
  predicate Unsaturated(s: Search)
  {
    s.replayRuns < U64_MAX && s.expandedEdges < U64_MAX && s.transpositionHits < U64_MAX && s.uniqueNodes < U64_MAX
  }

  /** One call's worth of counting: one run, plus one per expanded edge, and each
      run stops at a leaf, at a limit, at a known node or at a new node. */
  predicate Accounted(s: Search, s': Search, calls: nat)
  {
    && s'.replayRuns - s.replayRuns == calls + (s'.expandedEdges - s.expandedEdges)
    && s'.replayRuns - s.replayRuns ==
         (s'.leafVisits - s.leafVisits) + (s'.limitStops - s.limitStops)
         + (s'.transpositionHits - s.transpositionHits) + (s'.uniqueNodes - s.uniqueNodes)
  }

  predicate Grew(s: Search, s': Search)
  {
    && s.replayRuns <= s'.replayRuns && s.expandedEdges <= s'.expandedEdges
    && s.transpositionHits <= s'.transpositionHits && s.uniqueNodes <= s'.uniqueNodes
  }

  predicate WithinBudget(cfg: Config, s: Search)
  {
    s.uniqueNodes <= cfg.limits.maximumUniqueNodes && s.maximumObservedDepth <= cfg.limits.maximumDepth
  }

  lemma {:induction false} SearchAccounting(cfg: Config, s: Search, t: Tree, events: seq<string>,
                                            branch: seq<ScriptedChoice>)
    requires Shaped(t) && Explore(cfg, s, t, events, branch).Success?
    ensures var s' := Explore(cfg, s, t, events, branch).value.0;
            && Grew(s, s')
            && (Unsaturated(s') ==> Accounted(s, s', 1))
            && (WithinBudget(cfg, s) && |branch| <= cfg.limits.maximumDepth ==> WithinBudget(cfg, s'))
    decreases t, if t.Decision? then |t.edges| + 1 else 0
  {
    if t.Decision? {
      var s1 := AtRoot(AfterReplay(s, |branch|), t.point, events, branch);
      if !OverBudget(cfg, s1, t.point, branch) && NodeKey(cfg, t.point, |branch|) !in s1.memo {
        SearchAccountingFrom(cfg, Expanding(s1, t.point), t, events, branch, 0, NO_LEAVES);
        ExpansionAccounting(cfg, s, s1, t, events, branch);
      }
    }
  }

  lemma ExpansionAccounting(cfg: Config, s: Search, s1: Search, t: Tree, events: seq<string>,
                            branch: seq<ScriptedChoice>)
    requires Shaped(t) && t.Decision? && s1 == AtRoot(AfterReplay(s, |branch|), t.point, events, branch)
    requires ExploreFrom(cfg, Expanding(s1, t.point), t, events, branch, 0, NO_LEAVES).Success?
    requires var s2 := Expanding(s1, t.point); var s' := ExploreFrom(cfg, s2, t, events, branch, 0, NO_LEAVES).value.0;
             Grew(s2, s') && (Unsaturated(s') ==> Accounted(s2, s', |t.edges|))
    ensures var s' := ExploreFrom(cfg, Expanding(s1, t.point), t, events, branch, 0, NO_LEAVES).value.0;
            Grew(s, s') && (Unsaturated(s') ==> Accounted(s, s', 1))
  {
  }

  lemma {:induction false} SearchAccountingFrom(cfg: Config, s: Search, t: Tree, events: seq<string>,
                                                branch: seq<ScriptedChoice>, i: nat, totals: TreeCounts)
    requires Shaped(t) && t.Decision? && i <= |t.edges|
    requires ExploreFrom(cfg, s, t, events, branch, i, totals).Success?
    ensures var s' := ExploreFrom(cfg, s, t, events, branch, i, totals).value.0;
            && Grew(s, s')
            && (Unsaturated(s') ==> Accounted(s, s', |t.edges| - i))
            && (WithinBudget(cfg, s) && |branch| < cfg.limits.maximumDepth ==> WithinBudget(cfg, s'))
    decreases t, |t.edges| - i
  {
    if i < |t.edges| {
      var choice := Choices(t.point)[i];
      SearchAccounting(cfg, s, t.edges[i].next, events + t.edges[i].emitted, branch + [choice]);
      var (s1, c) := Explore(cfg, s, t.edges[i].next, events + t.edges[i].emitted, branch + [choice]).value;
      SearchAccountingFrom(cfg, Reported(s1, branch, choice, c), t, events, branch, i + 1, totals.Merge(c));
    }
  }

  /** From a fresh search: runs = 1 + edges = leaves + limit stops + hits + nodes,
      and the budgets are kept. */
  lemma WholeSearchAccounting(cfg: Config, t: Tree, events: seq<string>)
    requires Shaped(t) && Explore(cfg, FRESH_SEARCH, t, events, []).Success?
    ensures var s := Explore(cfg, FRESH_SEARCH, t, events, []).value.0;
            && (Unsaturated(s) ==> && s.replayRuns == 1 + s.expandedEdges
                                   && s.replayRuns == s.leafVisits + s.limitStops + s.transpositionHits + s.uniqueNodes)
            && WithinBudget(cfg, s)
  {
    SearchAccounting(cfg, FRESH_SEARCH, t, events, []);
  }

  // ------------------------------------------------------------ exactness

  /** The tree under a branch, and whether a loop-end event lies between the
      root and it. */
  ghost predicate IsBranch(root: Tree, rootEvents: seq<string>, b: seq<ScriptedChoice>)
    requires Shaped(root)
  {
    Descend(root, rootEvents, b).Some?
  }

  ghost function FutureAt(root: Tree, rootEvents: seq<string>, b: seq<ScriptedChoice>): (t: Tree)
    requires Shaped(root) && IsBranch(root, rootEvents, b)
    ensures Shaped(t)
  {
    Descend(root, rootEvents, b).value.0
  }

  ghost predicate PastAt(root: Tree, rootEvents: seq<string>, b: seq<ScriptedChoice>)
    requires Shaped(root) && IsBranch(root, rootEvents, b)
  {
    LoopEnded(Descend(root, rootEvents, b).value.1, |rootEvents|)
  }

  /** The memo key of the decision a branch leads to. */
  ghost function KeyAt(cfg: Config, root: Tree, rootEvents: seq<string>, b: seq<ScriptedChoice>): Option<int>
    requires Shaped(root)
  {
    if IsBranch(root, rootEvents, b) && FutureAt(root, rootEvents, b).Decision?
    then Some(NodeKey(cfg, FutureAt(root, rootEvents, b).point, |b|)) else None
  }

  /** Memo hypothesis: decisions with one key have one continuation. */
  ghost predicate KeysFixFuture(cfg: Config, root: Tree, rootEvents: seq<string>)
    requires Shaped(root)
  {
    forall a, b | KeyAt(cfg, root, rootEvents, a).Some? && KeyAt(cfg, root, rootEvents, a)
        == KeyAt(cfg, root, rootEvents, b) ::
      FutureAt(root, rootEvents, a) == FutureAt(root, rootEvents, b)
  }

  /** Every leaf of the tree lies behind a loop end of its own. */
  predicate BehindLoopEnds(t: Tree)
    decreases t, if t.Decision? then |t.edges| + 1 else 0
  {
    match t
    case Leaf(_, _, _) => false
    case Crash(_) => true
    case Decision(_, _) => BehindLoopEndsFrom(t, 0)
  }

  predicate BehindLoopEndsFrom(t: Tree, i: nat)
    requires t.Decision? && i <= |t.edges|
    decreases t, |t.edges| - i
  {
    i == |t.edges| || ((LoopEnded(t.edges[i].emitted, 0) || BehindLoopEnds(t.edges[i].next))
                       && BehindLoopEndsFrom(t, i + 1))
  }

  /** Second half of the hypothesis: decisions with one key have one past, so far
      as it matters below them. The key does not cover the event list, so nothing
      in the key itself enforces this. */
  ghost predicate KeysFixPast(cfg: Config, root: Tree, rootEvents: seq<string>)
    requires Shaped(root)
  {
    forall a, b | KeyAt(cfg, root, rootEvents, a).Some? && KeyAt(cfg, root, rootEvents, a)
        == KeyAt(cfg, root, rootEvents, b) ::
      PastAt(root, rootEvents, a) == PastAt(root, rootEvents, b) || BehindLoopEnds(FutureAt(root, rootEvents, a))
  }

  /** Without search-limit leaves, every outcome counter is the plain one cut
      off at 2^64 - 1; `past` adds the engine-safety counter. */
  predicate Exact(c: TreeCounts, plain: TreeCounts, past: bool)
  {
    c.searchLimit == 0 ==>
      && c.totalLeaves == Clamp(plain.totalLeaves) && c.learnerWins == Clamp(plain.learnerWins)
      && c.opponentWins == Clamp(plain.opponentWins) && c.draws == Clamp(plain.draws)
      && c.nextUntap == Clamp(plain.nextUntap) && c.turnLimit == Clamp(plain.turnLimit)
      && (past ==> c.safetyLimit == Clamp(plain.safetyLimit))
  }

  ghost predicate MemoExact(cfg: Config, root: Tree, rootEvents: seq<string>, memo: map<int, TreeCounts>, past: bool)
    requires Shaped(root)
  {
    forall b | KeyAt(cfg, root, rootEvents, b).Some? && KeyAt(cfg, root, rootEvents, b).value in memo ::
      Exact(memo[KeyAt(cfg, root, rootEvents, b).value],
            PlainCount(cfg.learner, FutureAt(root, rootEvents, b), PastAt(root, rootEvents, b)), past)
  }

  function OutcomesOf(c: TreeCounts): TreeCounts
  {
    c.(complete := true, safetyLimit := 0)
  }

  lemma {:induction false} OutcomesIgnoreThePast(learner: string, t: Tree, a: bool, b: bool)
    ensures OutcomesOf(PlainCount(learner, t, a)) == OutcomesOf(PlainCount(learner, t, b))
    decreases t, if t.Decision? then |t.edges| + 1 else 0
  {
    if t.Decision? {
      OutcomesIgnoreThePastFrom(learner, t, a, b, 0);
    }
  }

  lemma {:induction false} OutcomesIgnoreThePastFrom(learner: string, t: Tree, a: bool, b: bool, i: nat)
    requires t.Decision? && i <= |t.edges|
    ensures OutcomesOf(PlainCountFrom(learner, t, a, i)) == OutcomesOf(PlainCountFrom(learner, t, b, i))
    decreases t, |t.edges| - i
  {
    if i < |t.edges| {
      var ended := LoopEnded(t.edges[i].emitted, 0);
      OutcomesIgnoreThePast(learner, t.edges[i].next, a || ended, b || ended);
      OutcomesIgnoreThePastFrom(learner, t, a, b, i + 1);
    }
  }

  /** The past matters to a tree's safety count exactly unless every leaf lies
      behind a loop end of its own. */
  lemma {:induction false} SafetyIgnoresThePastIff(learner: string, t: Tree)
    ensures PlainCount(learner, t, true).safetyLimit >= PlainCount(learner, t, false).safetyLimit
    ensures PlainCount(learner, t, true).safetyLimit == PlainCount(learner, t, false).safetyLimit <==> BehindLoopEnds(t)
    decreases t, if t.Decision? then |t.edges| + 1 else 0
  {
    if t.Decision? {
      SafetyIgnoresThePastIffFrom(learner, t, 0);
    }
  }

  lemma {:induction false} SafetyIgnoresThePastIffFrom(learner: string, t: Tree, i: nat)
    requires t.Decision? && i <= |t.edges|
    ensures var a, b := PlainCountFrom(learner, t, true, i).safetyLimit,
            PlainCountFrom(learner, t, false, i).safetyLimit;
            a >= b && (a == b <==> BehindLoopEndsFrom(t, i))
    decreases t, |t.edges| - i
  {
    if i < |t.edges| {
      SafetyIgnoresThePastIff(learner, t.edges[i].next);
      SafetyIgnoresThePastIffFrom(learner, t, i + 1);
    }
  }

  lemma ExactMerge(a: TreeCounts, b: TreeCounts, p: TreeCounts, q: TreeCounts, past: bool)
    requires Exact(a, p, past) && Exact(b, q, past)
    ensures Exact(a.Merge(b), p.Plus(q), past)
  {
  }

  lemma LoopEndedAppend(events: seq<string>, emitted: seq<string>, from: nat)
    requires from <= |events|
    ensures LoopEnded(events + emitted, from) <==> LoopEnded(events, from) || LoopEnded(emitted, 0)
  {
    var all := events + emitted;
    if LoopEnded(events, from) {
      var i :| from <= i < |events| && events[i] == LOOP_END_EVENT;
      assert all[i] == LOOP_END_EVENT;
    }
    if LoopEnded(emitted, 0) {
      var i :| 0 <= i < |emitted| && emitted[i] == LOOP_END_EVENT;
      assert all[|events| + i] == LOOP_END_EVENT;
    }
    if LoopEnded(all, from) {
      var i :| from <= i < |all| && all[i] == LOOP_END_EVENT;
      assert if i < |events| then events[i] == LOOP_END_EVENT else emitted[i - |events|] == LOOP_END_EVENT;
    }
  }

  /** The setting of one search: a well-shaped tree whose keys are sound. */
  ghost predicate Sound(cfg: Config, root: Tree, rootEvents: seq<string>, past: bool)
  {
    && Shaped(root) && RepeatsAgree(root) && KeysFixFuture(cfg, root, rootEvents)
    && (past ==> KeysFixPast(cfg, root, rootEvents))
  }

  ghost predicate Standing(cfg: Config, root: Tree, rootEvents: seq<string>, s: Search, past: bool)
    requires Shaped(root)
  {
    s.rootPoint.Some? && s.rootEventCount == |rootEvents| && MemoExact(cfg, root, rootEvents, s.memo, past)
  }

  lemma ChildBranch(root: Tree, rootEvents: seq<string>, t: Tree, events: seq<string>, branch: seq<ScriptedChoice>,
                    i: nat)
    requires Shaped(root) && RepeatsAgree(root) && Descend(root, rootEvents, branch) == Some((t, events))
    requires t.Decision? && i < |t.edges|
    ensures Descend(root, rootEvents, branch + [Choices(t.point)[i]])
            == Some((t.edges[i].next, events + t.edges[i].emitted))
    ensures LoopEnded(events + t.edges[i].emitted, |rootEvents|)
              == (LoopEnded(events, |rootEvents|) || LoopEnded(t.edges[i].emitted, 0))
  {
    DescendKeeps(root, rootEvents, branch);
    ChoicesLandIffRepeatsAgree(t, events);
    DescendAppend(root, rootEvents, branch, [Choices(t.point)[i]]);
    LoopEndedAppend(events, t.edges[i].emitted, |rootEvents|);
  }

  /** Storing an exact count under its key keeps the whole memo exact, also for
      the other branches that share the key. */
  lemma StoreKeepsMemoExact(cfg: Config, root: Tree, rootEvents: seq<string>, memo: map<int, TreeCounts>, past: bool,
                            branch: seq<ScriptedChoice>, c: TreeCounts)
    requires Sound(cfg, root, rootEvents, past) && MemoExact(cfg, root, rootEvents, memo, past)
    requires KeyAt(cfg, root, rootEvents, branch).Some?
    requires Exact(c, PlainCount(cfg.learner, FutureAt(root, rootEvents, branch), PastAt(root, rootEvents, branch)),
                   past)
    ensures MemoExact(cfg, root, rootEvents, memo[KeyAt(cfg, root, rootEvents, branch).value := c], past)
  {
    var key := KeyAt(cfg, root, rootEvents, branch).value;
    forall b | KeyAt(cfg, root, rootEvents, b) == Some(key)
      ensures Exact(c, PlainCount(cfg.learner, FutureAt(root, rootEvents, b), PastAt(root, rootEvents, b)), past)
    {
      assert KeyAt(cfg, root, rootEvents, b) == KeyAt(cfg, root, rootEvents, branch);
      OutcomesIgnoreThePast(cfg.learner, FutureAt(root, rootEvents, b), PastAt(root, rootEvents, branch),
                            PastAt(root, rootEvents, b));
      SafetyIgnoresThePastIff(cfg.learner, FutureAt(root, rootEvents, b));
    }
  }

  lemma {:induction false} ExploreExact(cfg: Config, root: Tree, rootEvents: seq<string>, past: bool,
                                        s: Search, t: Tree, events: seq<string>, branch: seq<ScriptedChoice>)
    requires Sound(cfg, root, rootEvents, past) && Standing(cfg, root, rootEvents, s, past)
    requires Descend(root, rootEvents, branch) == Some((t, events)) && Explore(cfg, s, t, events, branch).Success?
    ensures var (s', c) := Explore(cfg, s, t, events, branch).value;
            && Standing(cfg, root, rootEvents, s', past)
            && Exact(c, PlainCount(cfg.learner, t, LoopEnded(events, |rootEvents|)), past)
    decreases t, if t.Decision? then 2 * |t.edges| + 5 else 0
  {
    if t.Decision? {
      VisitExact(cfg, root, rootEvents, past, AfterReplay(s, |branch|), t, events, branch);
    }
  }

  lemma {:induction false} VisitExact(cfg: Config, root: Tree, rootEvents: seq<string>, past: bool,
                                      s: Search, t: Tree, events: seq<string>, branch: seq<ScriptedChoice>)
    requires Sound(cfg, root, rootEvents, past) && Standing(cfg, root, rootEvents, s, past) && t.Decision?
    requires Descend(root, rootEvents, branch) == Some((t, events)) && Visit(cfg, s, t, events, branch).Success?
    ensures var (s', c) := Visit(cfg, s, t, events, branch).value;
            && Standing(cfg, root, rootEvents, s', past)
            && Exact(c, PlainCount(cfg.learner, t, LoopEnded(events, |rootEvents|)), past)
    decreases t, 2 * |t.edges| + 4
  {
    var key := NodeKey(cfg, t.point, |branch|);
    assert KeyAt(cfg, root, rootEvents, branch) == Some(key);
    if !OverBudget(cfg, s, t.point, branch) && key !in s.memo {
      NewNodeExact(cfg, root, rootEvents, past, s, t, events, branch);
    }
  }

  lemma {:induction false} NewNodeExact(cfg: Config, root: Tree, rootEvents: seq<string>, past: bool,
                                        s: Search, t: Tree, events: seq<string>, branch: seq<ScriptedChoice>)
    requires Sound(cfg, root, rootEvents, past) && Standing(cfg, root, rootEvents, s, past) && t.Decision?
    requires Descend(root, rootEvents, branch) == Some((t, events))
    requires KeyAt(cfg, root, rootEvents, branch) == Some(NodeKey(cfg, t.point, |branch|))
    requires ExploreFrom(cfg, Expanding(s, t.point), t, events, branch, 0, NO_LEAVES).Success?
    ensures var (s', c) := ExploreFrom(cfg, Expanding(s, t.point), t, events, branch, 0, NO_LEAVES).value;
            && Standing(cfg, root, rootEvents, s'.(memo := s'.memo[NodeKey(cfg, t.point, |branch|) := c]), past)
            && Exact(c, PlainCount(cfg.learner, t, LoopEnded(events, |rootEvents|)), past)
    decreases t, 2 * |t.edges| + 3
  {
    var s1 := Expanding(s, t.point);
    var (s2, c) := ExploreFrom(cfg, s1, t, events, branch, 0, NO_LEAVES).value;
    var plain := PlainCount(cfg.learner, t, LoopEnded(events, |rootEvents|));
    assert NO_LEAVES.Plus(plain) == plain;
    ExploreFromExact(cfg, root, rootEvents, past, s1, t, events, branch, 0, NO_LEAVES, NO_LEAVES, plain, (s2, c));
    StoreKeepsMemoExact(cfg, root, rootEvents, s2.memo, past, branch, c);
  }

  /** From the i-th edge on: `r` is what the search makes of it, `whole` the plain
      count of the node. */
  lemma {:induction false} ExploreFromExact(cfg: Config, root: Tree, rootEvents: seq<string>, past: bool,
                                            s: Search, t: Tree, events: seq<string>, branch: seq<ScriptedChoice>,
                                            i: nat, totals: TreeCounts, plain: TreeCounts, whole: TreeCounts,
                                            r: (Search, TreeCounts))
    requires Sound(cfg, root, rootEvents, past) && Standing(cfg, root, rootEvents, s, past)
    requires Descend(root, rootEvents, branch) == Some((t, events)) && t.Decision? && i <= |t.edges|
    requires ExploreFrom(cfg, s, t, events, branch, i, totals) == Success(r) && Exact(totals, plain, past)
    requires whole == plain.Plus(PlainCountFrom(cfg.learner, t, LoopEnded(events, |rootEvents|), i))
    ensures Standing(cfg, root, rootEvents, r.0, past) && Exact(r.1, whole, past)
    decreases t, 2 * (|t.edges| - i) + 2
  {
    if i == |t.edges| {
      NoEdgeLeft(cfg, s, t, events, branch, totals, plain, r);
    } else {
      NextEdgeExact(cfg, root, rootEvents, past, s, t, events, branch, i, totals, plain, whole, r);
    }
  }

  lemma {:induction false} NextEdgeExact(cfg: Config, root: Tree, rootEvents: seq<string>, past: bool,
                                         s: Search, t: Tree, events: seq<string>, branch: seq<ScriptedChoice>,
                                         i: nat, totals: TreeCounts, plain: TreeCounts, whole: TreeCounts,
                                         r: (Search, TreeCounts))
    requires Sound(cfg, root, rootEvents, past) && Standing(cfg, root, rootEvents, s, past)
    requires Descend(root, rootEvents, branch) == Some((t, events)) && t.Decision? && i < |t.edges|
    requires ExploreFrom(cfg, s, t, events, branch, i, totals) == Success(r) && Exact(totals, plain, past)
    requires whole == plain.Plus(PlainCountFrom(cfg.learner, t, LoopEnded(events, |rootEvents|), i))
    ensures Standing(cfg, root, rootEvents, r.0, past) && Exact(r.1, whole, past)
    decreases t, 2 * (|t.edges| - i) + 1
  {
    var s', totals', plain' := EdgeExact(cfg, root, rootEvents, past, s, t, events, branch, i, totals, plain, whole, r);
    ExploreFromExact(cfg, root, rootEvents, past, s', t, events, branch, i + 1, totals', plain', whole, r);
  }

  lemma NoEdgeLeft(cfg: Config, s: Search, t: Tree, events: seq<string>, branch: seq<ScriptedChoice>,
                   totals: TreeCounts, plain: TreeCounts, r: (Search, TreeCounts))
    requires Shaped(t) && t.Decision? && ExploreFrom(cfg, s, t, events, branch, |t.edges|, totals) == Success(r)
    ensures r == (s, totals)
    ensures forall ended :: plain.Plus(PlainCountFrom(cfg.learner, t, ended, |t.edges|)) == plain
  {
    assert plain.Plus(NO_LEAVES) == plain;
  }

  /** One edge further. */
  lemma {:induction false} EdgeExact(cfg: Config, root: Tree, rootEvents: seq<string>, past: bool,
                                     s: Search, t: Tree, events: seq<string>, branch: seq<ScriptedChoice>,
                                     i: nat, totals: TreeCounts, plain: TreeCounts, whole: TreeCounts,
                                     r: (Search, TreeCounts))
    returns (s': Search, totals': TreeCounts, plain': TreeCounts)
    requires Sound(cfg, root, rootEvents, past) && Standing(cfg, root, rootEvents, s, past)
    requires Descend(root, rootEvents, branch) == Some((t, events)) && t.Decision? && i < |t.edges|
    requires ExploreFrom(cfg, s, t, events, branch, i, totals) == Success(r) && Exact(totals, plain, past)
    requires whole == plain.Plus(PlainCountFrom(cfg.learner, t, LoopEnded(events, |rootEvents|), i))
    ensures Standing(cfg, root, rootEvents, s', past) && Exact(totals', plain', past)
    ensures ExploreFrom(cfg, s', t, events, branch, i + 1, totals') == Success(r)
    ensures whole == plain'.Plus(PlainCountFrom(cfg.learner, t, LoopEnded(events, |rootEvents|), i + 1))
    decreases t, 2
  {
    var choice, ended := Choices(t.point)[i], LoopEnded(events, |rootEvents|);
    NextEdgeCounts(cfg.learner, t, ended, i, plain);
    ExploreChildMerges(cfg, root, rootEvents, past, s, t, events, branch, i, totals, plain);
    var (s1, c) := Explore(cfg, s, t.edges[i].next, events + t.edges[i].emitted, branch + [choice]).value;
    s', totals' := Reported(s1, branch, choice, c), totals.Merge(c);
    plain' := plain.Plus(PlainCount(cfg.learner, t.edges[i].next, ended || LoopEnded(t.edges[i].emitted, 0)));
  }

  lemma NextEdgeCounts(learner: string, t: Tree, ended: bool, i: nat, plain: TreeCounts)
    requires t.Decision? && i < |t.edges|
    ensures var child := PlainCount(learner, t.edges[i].next, ended || LoopEnded(t.edges[i].emitted, 0));
            plain.Plus(PlainCountFrom(learner, t, ended, i))
              == plain.Plus(child).Plus(PlainCountFrom(learner, t, ended, i + 1))
  {
    var child := PlainCount(learner, t.edges[i].next, ended || LoopEnded(t.edges[i].emitted, 0));
  }

  lemma {:induction false} ExploreChildMerges(cfg: Config, root: Tree, rootEvents: seq<string>, past: bool,
                                              s: Search, t: Tree, events: seq<string>, branch: seq<ScriptedChoice>,
                                              i: nat, totals: TreeCounts, plain: TreeCounts)
    requires Sound(cfg, root, rootEvents, past) && Standing(cfg, root, rootEvents, s, past)
    requires Descend(root, rootEvents, branch) == Some((t, events)) && t.Decision? && i < |t.edges|
    requires Explore(cfg, s, t.edges[i].next, events + t.edges[i].emitted, branch + [Choices(t.point)[i]]).Success?
    requires Exact(totals, plain, past)
    ensures var choice := Choices(t.point)[i];
            var (s', c) := Explore(cfg, s, t.edges[i].next, events + t.edges[i].emitted, branch + [choice]).value;
            var child := PlainCount(cfg.learner, t.edges[i].next,
                                    LoopEnded(events, |rootEvents|) || LoopEnded(t.edges[i].emitted, 0));
            && Standing(cfg, root, rootEvents, Reported(s', branch, choice, c), past)
            && Exact(totals.Merge(c), plain.Plus(child), past)
    decreases t, 1
  {
    var choice := Choices(t.point)[i];
    var (s', c) := Explore(cfg, s, t.edges[i].next, events + t.edges[i].emitted, branch + [choice]).value;
    ExploreChildExact(cfg, root, rootEvents, past, s, t, events, branch, i);
    ExactMerge(totals, c, plain, PlainCount(cfg.learner, t.edges[i].next,
                                            LoopEnded(events, |rootEvents|) || LoopEnded(t.edges[i].emitted, 0)), past);
  }

  lemma {:induction false} ExploreChildExact(cfg: Config, root: Tree, rootEvents: seq<string>, past: bool,
                                             s: Search, t: Tree, events: seq<string>, branch: seq<ScriptedChoice>,
                                                 i: nat)
    requires Sound(cfg, root, rootEvents, past) && Standing(cfg, root, rootEvents, s, past)
    requires Descend(root, rootEvents, branch) == Some((t, events)) && t.Decision? && i < |t.edges|
    requires Explore(cfg, s, t.edges[i].next, events + t.edges[i].emitted, branch + [Choices(t.point)[i]]).Success?
    ensures var choice := Choices(t.point)[i];
            var (s', c) := Explore(cfg, s, t.edges[i].next, events + t.edges[i].emitted, branch + [choice]).value;
            && Standing(cfg, root, rootEvents, Reported(s', branch, choice, c), past)
            && Exact(c, PlainCount(cfg.learner, t.edges[i].next,
                                   LoopEnded(events, |rootEvents|) || LoopEnded(t.edges[i].emitted, 0)), past)
    decreases t, 0
  {
    ChildBranch(root, rootEvents, t, events, branch, i);
    ExploreExact(cfg, root, rootEvents, past, s, t.edges[i].next, events + t.edges[i].emitted,
                 branch + [Choices(t.point)[i]]);
  }

  // ------------------------------------------------------------ at the root

  /** A search begun at its root decision is one whose root was marked beforehand. */
  function MarkedSearch(p: Point, rootEvents: seq<string>): Search
  {
    FRESH_SEARCH.(rootEventCount := |rootEvents|, rootPoint := Some(p))
  }

  lemma {:induction false} PlainFlag(learner: string, t: Tree, ended: bool)
    ensures var c := PlainCount(learner, t, ended); FlagOk(c) && c.searchLimit == 0
    decreases t, if t.Decision? then |t.edges| + 1 else 0
  {
    if t.Decision? {
      PlainFlagFrom(learner, t, ended, 0);
    }
  }

  lemma {:induction false} PlainFlagFrom(learner: string, t: Tree, ended: bool, i: nat)
    requires t.Decision? && i <= |t.edges|
    ensures var c := PlainCountFrom(learner, t, ended, i); FlagOk(c) && c.searchLimit == 0
    decreases t, |t.edges| - i
  {
    if i < |t.edges| {
      PlainFlag(learner, t.edges[i].next, ended || LoopEnded(t.edges[i].emitted, 0));
      PlainFlagFrom(learner, t, ended, i + 1);
    }
  }

  /** Main result on counts. A complete search, and more generally one that met
      no search limit, reports the whole tree's outcome counts cut off at
      2^64 - 1, if equal keys mean equal continuations. If they also mean pasts
      equal so far as they matter, the whole report is the plain one, flag and safety count included. */
  lemma SearchCountsTheTree(cfg: Config, root: Tree, rootEvents: seq<string>, past: bool)
    requires root.Decision? && Sound(cfg, root, rootEvents, past)
    requires Explore(cfg, FRESH_SEARCH, root, rootEvents, []).Success?
    ensures var c := Explore(cfg, FRESH_SEARCH, root, rootEvents, []).value.1;
            var plain := PlainCount(cfg.learner, root, false);
            && (c.complete <==> c.turnLimit == 0 && c.searchLimit == 0 && c.safetyLimit == 0)
            && Exact(c, plain, past)
            && (past && c.searchLimit == 0 ==> c == plain.Clamped())
  {
    var s := MarkedSearch(root.point, rootEvents);
    CompleteMeansNoLimit(cfg, s, root, rootEvents, []);
    ExploreExact(cfg, root, rootEvents, past, s, root, rootEvents, []);
    PlainFlag(cfg.learner, root, false);
  }

  lemma CountsAgreeIff(learner: string, t: Tree, a: bool, b: bool)
    ensures PlainCount(learner, t, a) == PlainCount(learner, t, b) <==> a == b || BehindLoopEnds(t)
  {
    OutcomesIgnoreThePast(learner, t, a, b);
    SafetyIgnoresThePastIff(learner, t);
    PlainFlag(learner, t, a);
    PlainFlag(learner, t, b);
    var c, d := PlainCount(learner, t, a), PlainCount(learner, t, b);
    if a == b || BehindLoopEnds(t) {
      assert c == OutcomesOf(c).(complete := c.complete, safetyLimit := c.safetyLimit);
      assert d == OutcomesOf(d).(complete := d.complete, safetyLimit := d.safetyLimit);
    }
  }

  /** Any two branches with one key have one plain count: whichever of them is
      counted first, its count in the memo is right for the other. */
  ghost predicate KeysFixCounts(cfg: Config, root: Tree, rootEvents: seq<string>)
    requires Shaped(root)
  {
    forall a, b | KeyAt(cfg, root, rootEvents, a).Some? && KeyAt(cfg, root, rootEvents, a)
        == KeyAt(cfg, root, rootEvents, b) ::
      PlainCount(cfg.learner, FutureAt(root, rootEvents, a), PastAt(root, rootEvents, a))
      == PlainCount(cfg.learner, FutureAt(root, rootEvents, b), PastAt(root, rootEvents, b))
  }

  /** The hypothesis on pasts is exact: where equal keys mean equal continuations,
      it holds if and only if every branch may be answered from the memo with the
      count of any other that has its key. */
  lemma KeysFixPastIff(cfg: Config, root: Tree, rootEvents: seq<string>)
    requires Shaped(root) && KeysFixFuture(cfg, root, rootEvents)
    ensures KeysFixPast(cfg, root, rootEvents) <==> KeysFixCounts(cfg, root, rootEvents)
  {
    forall a, b | KeyAt(cfg, root, rootEvents, a).Some? && KeyAt(cfg, root, rootEvents, a)
        == KeyAt(cfg, root, rootEvents, b)
      ensures PlainCount(cfg.learner, FutureAt(root, rootEvents, a), PastAt(root, rootEvents, a))
           == PlainCount(cfg.learner, FutureAt(root, rootEvents, b), PastAt(root, rootEvents, b))
           <==> PastAt(root, rootEvents, a) == PastAt(root, rootEvents, b)
                || BehindLoopEnds(FutureAt(root, rootEvents, a))
    {
      CountsAgreeIff(cfg.learner, FutureAt(root, rootEvents, a), PastAt(root, rootEvents, a),
                     PastAt(root, rootEvents, b));
    }
  }

  // Two moves reach one and the same position, the second through a forced loop end.
  const SHARED_POINT := Point("position", "d1", "p", 0, Actions(["pass"]))
  const SHARED_TREE := Decision(SHARED_POINT, [Edge([], Leaf(Reached, None, 2))])
  const SPLIT_POINT := Point("start", "d0", "p", 0, Actions(["a", "b"]))
  const SPLIT_TREE := Decision(SPLIT_POINT, [Edge([], SHARED_TREE), Edge([LOOP_END_EVENT], SHARED_TREE)])

  lemma SplitTreeFacts()
    ensures Choices(SPLIT_POINT) == [Action("d0", "a"), Action("d0", "b")]
            && Choices(SHARED_POINT) == [Action("d1", "pass")]
    ensures Shaped(SHARED_TREE) && Shaped(SPLIT_TREE) && RepeatsAgree(SHARED_TREE) && RepeatsAgree(SPLIT_TREE)
  {
  }

  lemma LoopEndFacts()
    ensures LoopEnded([LOOP_END_EVENT], 0) && !LoopEnded([], 0)
  {
    assert [LOOP_END_EVENT][0] == LOOP_END_EVENT;
  }

  lemma BelowSharedTree(events: seq<string>, script: seq<ScriptedChoice>)
    requires Shaped(SHARED_TREE)
    ensures script != [] && Descend(SHARED_TREE, events, script).Some? ==>
            Descend(SHARED_TREE, events, script).value.0.Leaf?
  {
  }

  lemma SplitTreeKeys(cfg: Config)
    requires Shaped(SPLIT_TREE) && NodeKey(cfg, SPLIT_POINT, 0) != NodeKey(cfg, SHARED_POINT, 1)
    ensures KeysFixFuture(cfg, SPLIT_TREE, [])
  {
    forall b | KeyAt(cfg, SPLIT_TREE, [], b).Some?
      ensures if b == [] then KeyAt(cfg, SPLIT_TREE, [], b).value == NodeKey(cfg, SPLIT_POINT, 0)
              else
                && FutureAt(SPLIT_TREE, [], b) == SHARED_TREE
                && KeyAt(cfg, SPLIT_TREE, [], b).value == NodeKey(cfg, SHARED_POINT, 1)
    {
      if b != [] {
        var i := Answer(SPLIT_POINT, b[0]).value;
        var events := [] + SPLIT_TREE.edges[i].emitted;
        assert SPLIT_TREE.edges[i].next == SHARED_TREE;
        assert Descend(SPLIT_TREE, [], b) == Descend(SHARED_TREE, events, b[1..]);
        BelowSharedTree(events, b[1..]);
      }
    }
  }

  lemma SplitTreeSearch(cfg: Config)
    requires Shaped(SPLIT_TREE) && NodeKey(cfg, SPLIT_POINT, 0) != NodeKey(cfg, SHARED_POINT, 1)
    requires cfg.limits.maximumDepth >= 2 && cfg.limits.maximumChoicesPerNode >= 2 && cfg.limits.maximumUniqueNodes >= 3
    ensures Explore(cfg, FRESH_SEARCH, SPLIT_TREE, [], []).Success?
    ensures var c := Explore(cfg, FRESH_SEARCH, SPLIT_TREE, [], []).value.1; c.complete && c.totalLeaves == 2
  {
    SplitTreeFacts();
    var leaf := TreeCounts(true, 1, 0, 0, 0, 1, 0, 0, 0);
    var a, b := Choices(SPLIT_POINT)[0], Choices(SPLIT_POINT)[1];
    var s0 := Expanding(AtRoot(AfterReplay(FRESH_SEARCH, 0), SPLIT_POINT, [], []), SPLIT_POINT);
    var s1 := Expanding(AfterReplay(s0, 1), SHARED_POINT);
    assert [] + SHARED_TREE.edges[0].emitted == [];
    var s2 := AfterLeaf(cfg, AfterReplay(s1, 2), Reached, None, [a] + [Choices(SHARED_POINT)[0]]);
    assert Explore(cfg, s1, SHARED_TREE.edges[0].next, [], [a] + [Choices(SHARED_POINT)[0]]) == Success((s2, leaf));
    assert NO_LEAVES.Merge(leaf) == leaf;
    assert ExploreFrom(cfg, s2, SHARED_TREE, [], [a], 1, leaf) == Success((s2, leaf));
    assert ExploreFrom(cfg, s1, SHARED_TREE, [], [a], 0, NO_LEAVES) == Success((s2, leaf));
    var s3 := s2.(memo := s2.memo[NodeKey(cfg, SHARED_POINT, 1) := leaf]);
    assert Explore(cfg, s0, SHARED_TREE, [], [a]) == Success((s3, leaf));
    var s4 := Reported(s3, [], a, leaf);
    var s5 := AfterReplay(s4, 1);
    var s6 := s5.(transpositionHits := SaturatingAdd(s5.transpositionHits, 1));
    assert Explore(cfg, s4, SHARED_TREE, [LOOP_END_EVENT], [b]) == Success((s6, leaf));
    var s7, total := Reported(s6, [], b, leaf), leaf.Merge(leaf);
    assert ExploreFrom(cfg, s7, SPLIT_TREE, [], [], 2, total) == Success((s7, total));
    assert [] + SPLIT_TREE.edges[1].emitted == [LOOP_END_EVENT];
    assert [] + [b] == [b];
    assert ExploreFrom(cfg, s4, SPLIT_TREE, [], [], 1, leaf) == Success((s7, total));
    assert [] + SPLIT_TREE.edges[0].emitted == [];
    assert [] + [a] == [a];
    assert ExploreFrom(cfg, s0, SPLIT_TREE, [], [], 0, NO_LEAVES) == Success((s7, total));
  }

  /** The second half of the hypothesis is needed: the key leaves out the event
      list. The search answers the second move from the memo, and calls a tree
      complete that holds a safety-limit leaf. */
  lemma SharedKeyHidesSafetyLimit(cfg: Config)
    requires NodeKey(cfg, SPLIT_POINT, 0) != NodeKey(cfg, SHARED_POINT, 1)
    requires cfg.limits.maximumDepth >= 2 && cfg.limits.maximumChoicesPerNode >= 2 && cfg.limits.maximumUniqueNodes >= 3
    ensures Sound(cfg, SPLIT_TREE, [], false) && !KeysFixPast(cfg, SPLIT_TREE, [])
    ensures Explore(cfg, FRESH_SEARCH, SPLIT_TREE, [], []).Success?
    ensures Explore(cfg, FRESH_SEARCH, SPLIT_TREE, [], []).value.1.complete
    ensures PlainCount(cfg.learner, SPLIT_TREE, false).safetyLimit == 1
  {
    SplitTreeFacts();
    SplitTreeKeys(cfg);
    SplitTreeSearch(cfg);
    LoopEndFacts();
    SafetyOfSplit(cfg.learner, SPLIT_TREE, SHARED_TREE);
    var a, b := [Choices(SPLIT_POINT)[0]], [Choices(SPLIT_POINT)[1]];
    assert Descend(SPLIT_TREE, [], a) == Descend(SHARED_TREE, [] + SPLIT_TREE.edges[0].emitted, a[1..]);
    assert Descend(SPLIT_TREE, [], b) == Descend(SHARED_TREE, [] + SPLIT_TREE.edges[1].emitted, b[1..]);
    assert [] + SPLIT_TREE.edges[0].emitted == [] && [] + SPLIT_TREE.edges[1].emitted == [LOOP_END_EVENT];
    assert KeyAt(cfg, SPLIT_TREE, [], a) == KeyAt(cfg, SPLIT_TREE, [], b);
  }

  lemma SafetyOfOneEdge(learner: string, t: Tree, ended: bool)
    requires t.Decision? && |t.edges| == 1
    ensures PlainCount(learner, t, ended).safetyLimit
              == PlainCount(learner, t.edges[0].next, ended || LoopEnded(t.edges[0].emitted, 0)).safetyLimit
  {
    assert PlainCountFrom(learner, t, ended, 1) == NO_LEAVES;
  }

  lemma SafetyOfTwoEdges(learner: string, t: Tree, ended: bool)
    requires t.Decision? && |t.edges| == 2
    ensures PlainCount(learner, t, ended).safetyLimit
              == PlainCount(learner, t.edges[0].next, ended || LoopEnded(t.edges[0].emitted, 0)).safetyLimit
                 + PlainCount(learner, t.edges[1].next, ended || LoopEnded(t.edges[1].emitted, 0)).safetyLimit
  {
    assert PlainCountFrom(learner, t, ended, 2) == NO_LEAVES;
    assert PlainCountFrom(learner, t, ended, 1).safetyLimit
        == PlainCount(learner, t.edges[1].next, ended || LoopEnded(t.edges[1].emitted, 0)).safetyLimit;
  }

  /** Two edges into one position with a single safe leaf, the second of them
      through a loop end: exactly one leaf lies behind a loop end. */
  lemma SafetyOfSplit(learner: string, t: Tree, shared: Tree)
    requires t.Decision? && |t.edges| == 2 && t.edges[0].next == shared && t.edges[1].next == shared
    requires shared.Decision? && |shared.edges| == 1 && shared.edges[0].next.Leaf?
    requires !LoopEnded(t.edges[0].emitted, 0) && LoopEnded(t.edges[1].emitted, 0)
             && !LoopEnded(shared.edges[0].emitted, 0)
    ensures PlainCount(learner, t, false).safetyLimit == 1
  {
    SafetyOfOneEdge(learner, shared, false);
    SafetyOfOneEdge(learner, shared, true);
    SafetyOfTwoEdges(learner, t, false);
  }
}
