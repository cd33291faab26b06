/** The search's winning branch and its per-root-choice report. */
module SearchWitness {
  import opened Wrappers
  import opened EngineTree
  import opened ReplayProviders
  import opened TreeSearch
  import opened SearchProofs

  // ------------------------------------------------------- winning branch

  predicate LearnerWin(learner: string, t: Tree)
  {
    t.Leaf? && t.boundary.GameEnded? && t.winner == Some(learner)
  }

  /** While no win has been recorded, no stored count holds one. */
  ghost predicate WinsKnown(s: Search)
  {
    s.winningBranch.None? ==> forall k | k in s.memo :: s.memo[k].learnerWins == 0
  }

  ghost predicate WinsAt(learner: string, root: Tree, rootEvents: seq<string>, b: seq<ScriptedChoice>)
    requires Shaped(root)
  {
    Descend(root, rootEvents, b).Some? && LearnerWin(learner, Descend(root, rootEvents, b).value.0)
  }

  /** What a call that returned `c` may do to the recorded branch. */
  ghost predicate WitnessStep(learner: string, root: Tree, rootEvents: seq<string>, s: Search, s': Search, wins: nat)
    requires Shaped(root)
  {
    && WinsKnown(s')
    && (s.winningBranch.Some? ==> s'.winningBranch == s.winningBranch)
    && (s.winningBranch.None? ==> (s'.winningBranch.Some? <==> wins > 0))
    && (s.winningBranch.None? && s'.winningBranch.Some? ==> WinsAt(learner, root, rootEvents, s'.winningBranch.value))
  }

  lemma {:induction false} ExploreWitness(cfg: Config, root: Tree, rootEvents: seq<string>,
                                          s: Search, t: Tree, events: seq<string>, branch: seq<ScriptedChoice>)
    requires Shaped(root) && RepeatsAgree(root) && WinsKnown(s)
    requires Descend(root, rootEvents, branch) == Some((t, events)) && Explore(cfg, s, t, events, branch).Success?
    ensures var (s', c) := Explore(cfg, s, t, events, branch).value;
            WitnessStep(cfg.learner, root, rootEvents, s, s', c.learnerWins)
    decreases t, if t.Decision? then |t.edges| + 1 else 0
  {
    if t.Decision? {
      var s1 := AtRoot(AfterReplay(s, |branch|), t.point, events, branch);
      if !OverBudget(cfg, s1, t.point, branch) && NodeKey(cfg, t.point, |branch|) !in s1.memo {
        ExploreFromWitness(cfg, root, rootEvents, Expanding(s1, t.point), t, events, branch, 0, NO_LEAVES);
      }
    }
  }

  lemma {:induction false} ExploreFromWitness(cfg: Config, root: Tree, rootEvents: seq<string>, s: Search, t: Tree,
                                              events: seq<string>, branch: seq<ScriptedChoice>, i: nat,
                                                  totals: TreeCounts)
    requires Shaped(root) && RepeatsAgree(root) && WinsKnown(s)
    requires Descend(root, rootEvents, branch) == Some((t, events)) && t.Decision? && i <= |t.edges|
    requires ExploreFrom(cfg, s, t, events, branch, i, totals).Success?
    requires s.winningBranch.None? ==> totals.learnerWins == 0
    ensures var (s', c) := ExploreFrom(cfg, s, t, events, branch, i, totals).value;
            && WitnessStep(cfg.learner, root, rootEvents, s, s', c.learnerWins)
            && c.learnerWins >= Clamp(totals.learnerWins)
    decreases t, |t.edges| - i
  {
    if i < |t.edges| {
      var choice := Choices(t.point)[i];
      ChildBranch(root, rootEvents, t, events, branch, i);
      var next, events' := t.edges[i].next, events + t.edges[i].emitted;
      ExploreWitness(cfg, root, rootEvents, s, next, events', branch + [choice]);
      var (s1, c) := Explore(cfg, s, next, events', branch + [choice]).value;
      var s2, sum := Reported(s1, branch, choice, c), totals.Merge(c);
      OneEdgeFurther(cfg, s, t, events, branch, i, totals);
      MergedWins(totals, c);
      assert WitnessStep(cfg.learner, root, rootEvents, s, s2, c.learnerWins) && WinsKnown(s2);
      assert s2.winningBranch.None? ==> sum.learnerWins == 0;
      ExploreFromWitness(cfg, root, rootEvents, s2, t, events, branch, i + 1, sum);
      var (s3, total) := ExploreFrom(cfg, s2, t, events, branch, i + 1, sum).value;
      WitnessSteps(cfg.learner, root, rootEvents, s, s2, s3, c.learnerWins, total.learnerWins);
      assert ExploreFrom(cfg, s, t, events, branch, i, totals).value == (s3, total);
    } else {
      assert ExploreFrom(cfg, s, t, events, branch, i, totals).value == (s, totals);
    }
  }

  lemma MergedWins(a: TreeCounts, b: TreeCounts)
    ensures var wins := a.Merge(b).learnerWins;
            && (wins == 0 <==> a.learnerWins == 0 && b.learnerWins == 0)
            && wins >= Clamp(a.learnerWins) && wins >= Clamp(b.learnerWins) && Clamp(wins) == wins
  {
  }

  /** One turn of the loop over a decision's choices. */
  lemma OneEdgeFurther(cfg: Config, s: Search, t: Tree, events: seq<string>, branch: seq<ScriptedChoice>, i: nat,
                       totals: TreeCounts)
    requires Shaped(t) && t.Decision? && i < |t.edges| && ExploreFrom(cfg, s, t, events, branch, i, totals).Success?
    ensures var choice := Choices(t.point)[i];
            var r := Explore(cfg, s, t.edges[i].next, events + t.edges[i].emitted, branch + [choice]);
            && r.Success?
            && ExploreFrom(cfg, s, t, events, branch, i, totals)
               == ExploreFrom(cfg, Reported(r.value.0, branch, choice, r.value.1), t, events, branch, i + 1,
                              totals.Merge(r.value.1))
  {
  }

  lemma WitnessSteps(learner: string, root: Tree, rootEvents: seq<string>, s: Search, s1: Search, s2: Search,
                     wins: nat, total: nat)
    requires Shaped(root) && WitnessStep(learner, root, rootEvents, s, s1, wins)
             && WitnessStep(learner, root, rootEvents, s1, s2, total)
    requires total >= Clamp(wins)
    ensures WitnessStep(learner, root, rootEvents, s, s2, total)
  {
  }

  /** A fresh search records a winning branch exactly when it reports a learner
      win, whatever its limits and whatever its hash; replayed from the root, by
      the search or under any random tape, the branch ends in that win. */
  lemma WinningBranchIffWins(cfg: Config, root: Tree, rootEvents: seq<string>, tape: nat -> nat)
    requires Shaped(root) && RepeatsAgree(root) && Explore(cfg, FRESH_SEARCH, root, rootEvents, []).Success?
    ensures var (s, c) := Explore(cfg, FRESH_SEARCH, root, rootEvents, []).value;
            && (s.winningBranch.Some? <==> c.learnerWins > 0)
            && (s.winningBranch.Some? ==>
                  var w := s.winningBranch.value;
                  var end := Play(root, rootEvents, w, tape, 0);
                  && Run(root, rootEvents, w).AtLeaf? && Run(root, rootEvents, w).boundary == GameEnded
                  && Run(root, rootEvents, w).winner == Some(cfg.learner)
                  && end.end.Success? && end.end.value.boundary == GameEnded
                      && end.end.value.winner == Some(cfg.learner)
                  && end.trace == w && end.consumed == |w|)
  {
    ExploreWitness(cfg, root, rootEvents, FRESH_SEARCH, root, rootEvents, []);
    var s := Explore(cfg, FRESH_SEARCH, root, rootEvents, []).value.0;
    if s.winningBranch.Some? {
      var w := s.winningBranch.value;
      RunResumes(root, rootEvents, w, []);
      assert w + [] == w;
      PlayFollowsPath(root, rootEvents, w, tape, 0);
    }
  }

  // --------------------------------------------- the first winning leaf

  /** The node an index path leads to. */
  function Follow(t: Tree, path: seq<nat>): Option<Tree>
    decreases path
  {
    if path == [] then Some(t)
    else if t.Decision? && path[0] < |t.edges| then Follow(t.edges[path[0]].next, path[1..])
    else None
  }

  function PathChoices(t: Tree, path: seq<nat>): seq<ScriptedChoice>
    requires Shaped(t) && Follow(t, path).Some?
    decreases path
  {
    if path == [] then [] else [Choices(t.point)[path[0]]] + PathChoices(t.edges[path[0]].next, path[1..])
  }

  predicate LexLeq(a: seq<nat>, b: seq<nat>)
  {
    a == [] || (b != [] && (a[0] < b[0] || (a[0] == b[0] && LexLeq(a[1..], b[1..]))))
  }

  /** The winning leaf a plain depth-first walk meets first. */
  function FirstWin(learner: string, t: Tree): (r: Option<seq<nat>>)
    ensures r.Some? ==> Follow(t, r.value).Some? && LearnerWin(learner, Follow(t, r.value).value)
    decreases t, if t.Decision? then |t.edges| + 1 else 0
  {
    if t.Decision? then FirstWinFrom(learner, t, 0)
    else if LearnerWin(learner, t) then Some([]) else None
  }

  function FirstWinFrom(learner: string, t: Tree, i: nat): (r: Option<seq<nat>>)
    requires t.Decision? && i <= |t.edges|
    ensures r.Some? ==> r.value != [] && i <= r.value[0]
                        && Follow(t, r.value).Some? && LearnerWin(learner, Follow(t, r.value).value)
    decreases t, |t.edges| - i
  {
    if i == |t.edges| then None
    else match FirstWin(learner, t.edges[i].next)
         case Some(path) => (assert ([i] + path)[1..] == path; Some([i] + path))
         case None => FirstWinFrom(learner, t, i + 1)
  }

  /** The walk's first win comes before every winning leaf in choice order. */
  lemma {:induction false} FirstWinIsLeast(learner: string, t: Tree, path: seq<nat>)
    requires Follow(t, path).Some? && LearnerWin(learner, Follow(t, path).value)
    ensures FirstWin(learner, t).Some? && LexLeq(FirstWin(learner, t).value, path)
    decreases path
  {
    if t.Decision? {
      FirstWinIsLeast(learner, t.edges[path[0]].next, path[1..]);
      FirstWinFromIsLeast(learner, t, path, 0);
    }
  }

  lemma {:induction false} FirstWinFromIsLeast(learner: string, t: Tree, path: seq<nat>, i: nat)
    requires t.Decision? && path != [] && i <= path[0] < |t.edges|
    requires FirstWin(learner, t.edges[path[0]].next).Some?
    requires LexLeq(FirstWin(learner, t.edges[path[0]].next).value, path[1..])
    ensures FirstWinFrom(learner, t, i).Some? && LexLeq(FirstWinFrom(learner, t, i).value, path)
    decreases |t.edges| - i
  {
    match FirstWin(learner, t.edges[i].next) {
      case Some(w) =>
        assert FirstWinFrom(learner, t, i) == Some([i] + w) && ([i] + w)[1..] == w;
      case None =>
        FirstWinFromIsLeast(learner, t, path, i + 1);
    }
  }

  lemma {:induction false} NoWinIffNoneCounted(learner: string, t: Tree, ended: bool)
    ensures PlainCount(learner, t, ended).learnerWins == 0 <==> FirstWin(learner, t).None?
    decreases t, if t.Decision? then |t.edges| + 1 else 0
  {
    if t.Decision? {
      NoWinFromIffNoneCounted(learner, t, ended, 0);
    }
  }

  lemma {:induction false} NoWinFromIffNoneCounted(learner: string, t: Tree, ended: bool, i: nat)
    requires t.Decision? && i <= |t.edges|
    ensures PlainCountFrom(learner, t, ended, i).learnerWins == 0 <==> FirstWinFrom(learner, t, i).None?
    decreases t, |t.edges| - i
  {
    if i < |t.edges| {
      NoWinIffNoneCounted(learner, t.edges[i].next, ended || LoopEnded(t.edges[i].emitted, 0));
      NoWinFromIffNoneCounted(learner, t, ended, i + 1);
    }
  }

  /** A search-limit leaf, once counted, stays in every total built on it. */
  lemma {:induction false} SearchLimitStays(cfg: Config, s: Search, t: Tree, events: seq<string>,
                                            branch: seq<ScriptedChoice>, i: nat, totals: TreeCounts)
    requires Shaped(t) && t.Decision? && i <= |t.edges| && ExploreFrom(cfg, s, t, events, branch, i, totals).Success?
    ensures ExploreFrom(cfg, s, t, events, branch, i, totals).value.1.searchLimit == 0 ==> totals.searchLimit == 0
    decreases |t.edges| - i
  {
    if i < |t.edges| {
      var choice := Choices(t.point)[i];
      var (s1, c) := Explore(cfg, s, t.edges[i].next, events + t.edges[i].emitted, branch + [choice]).value;
      SearchLimitStays(cfg, Reported(s1, branch, choice, c), t, events, branch, i + 1, totals.Merge(c));
    }
  }

  function Prefixed(t: Tree, branch: seq<ScriptedChoice>, path: Option<seq<nat>>): Option<seq<ScriptedChoice>>
    requires Shaped(t) && (path.Some? ==> Follow(t, path.value).Some?)
  {
    match path
    case None => None
    case Some(p) => Some(branch + PathChoices(t, p))
  }

  lemma {:induction false} ExploreFindsFirstWin(cfg: Config, root: Tree, rootEvents: seq<string>,
                                                s: Search, t: Tree, events: seq<string>, branch: seq<ScriptedChoice>)
    requires Sound(cfg, root, rootEvents, false) && Standing(cfg, root, rootEvents, s, false)
    requires WinsKnown(s) && s.winningBranch.None?
    requires Descend(root, rootEvents, branch) == Some((t, events)) && Explore(cfg, s, t, events, branch).Success?
    ensures var (s', c) := Explore(cfg, s, t, events, branch).value;
            c.searchLimit == 0 ==> s'.winningBranch == Prefixed(t, branch, FirstWin(cfg.learner, t))
    decreases t, if t.Decision? then |t.edges| + 1 else 0
  {
    var (s', c) := Explore(cfg, s, t, events, branch).value;
    if !t.Decision? {
      assert branch + [] == branch;
    } else if c.searchLimit == 0 {
      var s1 := AfterReplay(s, |branch|);
      var key := NodeKey(cfg, t.point, |branch|);
      assert KeyAt(cfg, root, rootEvents, branch) == Some(key);
      if key in s1.memo {
        var plain := PlainCount(cfg.learner, t, LoopEnded(events, |rootEvents|));
        assert Exact(s.memo[key], plain, false) && s.memo[key].learnerWins == 0;
        NoWinIffNoneCounted(cfg.learner, t, LoopEnded(events, |rootEvents|));
      } else {
        ExploreFromFindsFirstWin(cfg, root, rootEvents, Expanding(s1, t.point), t, events, branch, 0, NO_LEAVES);
      }
    }
  }

  lemma {:induction false} ExploreFromFindsFirstWin(cfg: Config, root: Tree, rootEvents: seq<string>, s: Search,
                                                    t: Tree,
                                                    events: seq<string>, branch: seq<ScriptedChoice>, i: nat,
                                                        totals: TreeCounts)
    requires Sound(cfg, root, rootEvents, false) && Standing(cfg, root, rootEvents, s, false)
    requires WinsKnown(s) && s.winningBranch.None? && totals.learnerWins == 0
    requires Descend(root, rootEvents, branch) == Some((t, events)) && t.Decision? && i <= |t.edges|
    requires ExploreFrom(cfg, s, t, events, branch, i, totals).Success?
    requires ExploreFrom(cfg, s, t, events, branch, i, totals).value.1.searchLimit == 0
    ensures var s' := ExploreFrom(cfg, s, t, events, branch, i, totals).value.0;
            s'.winningBranch == Prefixed(t, branch, FirstWinFrom(cfg.learner, t, i))
    decreases t, |t.edges| - i
  {
    if i < |t.edges| {
      var choice := Choices(t.point)[i];
      var next, events' := t.edges[i].next, events + t.edges[i].emitted;
      ChildBranch(root, rootEvents, t, events, branch, i);
      var (s1, c) := Explore(cfg, s, next, events', branch + [choice]).value;
      var s2 := Reported(s1, branch, choice, c);
      SearchLimitStays(cfg, s2, t, events, branch, i + 1, totals.Merge(c));
      ExploreExact(cfg, root, rootEvents, false, s, next, events', branch + [choice]);
      ExploreWitness(cfg, root, rootEvents, s, next, events', branch + [choice]);
      ExploreFindsFirstWin(cfg, root, rootEvents, s, next, events', branch + [choice]);
      PrefixedStep(cfg.learner, t, branch, i);
      assert ExploreFrom(cfg, s, t, events, branch, i, totals)
             == ExploreFrom(cfg, s2, t, events, branch, i + 1, totals.Merge(c));
      if s2.winningBranch.Some? {
        ExploreFromWitness(cfg, root, rootEvents, s2, t, events, branch, i + 1, totals.Merge(c));
      } else {
        ExploreFromFindsFirstWin(cfg, root, rootEvents, s2, t, events, branch, i + 1, totals.Merge(c));
      }
    }
  }

  /** The first win from edge i on lies under that edge, if there is one there. */
  lemma PrefixedStep(learner: string, t: Tree, branch: seq<ScriptedChoice>, i: nat)
    requires Shaped(t) && t.Decision? && i < |t.edges|
    ensures var next, choice := t.edges[i].next, Choices(t.point)[i];
            Prefixed(t, branch, FirstWinFrom(learner, t, i))
              == if FirstWin(learner, next).Some? then Prefixed(next, branch + [choice], FirstWin(learner, next))
                 else Prefixed(t, branch, FirstWinFrom(learner, t, i + 1))
  {
    var next, choice := t.edges[i].next, Choices(t.point)[i];
    if FirstWin(learner, next).Some? {
      var path := FirstWin(learner, next).value;
      assert ([i] + path)[1..] == path;
      assert branch + [choice] + PathChoices(next, path) == branch + ([choice] + PathChoices(next, path));
    }
  }

  /** In a search that met no search limit, a complete one in particular, the
      recorded branch is the first winning leaf of the whole tree in choice
      order: a memo hit is never the first to contain a win. */
  lemma WinningBranchIsFirst(cfg: Config, root: Tree, rootEvents: seq<string>)
    requires root.Decision? && Sound(cfg, root, rootEvents, false)
    requires Explore(cfg, FRESH_SEARCH, root, rootEvents, []).Success?
    ensures var (s, c) := Explore(cfg, FRESH_SEARCH, root, rootEvents, []).value;
            c.searchLimit == 0 ==>
              match s.winningBranch
              case None => forall path :: Follow(root, path).Some? ==>
                  !LearnerWin(cfg.learner, Follow(root, path).value)
              case Some(w) =>
                exists first ::
                  && Follow(root, first).Some? && LearnerWin(cfg.learner, Follow(root, first).value)
                  && w == PathChoices(root, first)
                  && forall path :: Follow(root, path).Some? && LearnerWin(cfg.learner, Follow(root, path).value) ==>
                      LexLeq(first, path)
  {
    ExploreFindsFirstWin(cfg, root, rootEvents, MarkedSearch(root.point, rootEvents), root, rootEvents, []);
    forall path | Follow(root, path).Some? && LearnerWin(cfg.learner, Follow(root, path).value)
      ensures FirstWin(cfg.learner, root).Some? && LexLeq(FirstWin(cfg.learner, root).value, path)
    {
      FirstWinIsLeast(cfg.learner, root, path);
    }
    if FirstWin(cfg.learner, root).Some? {
      var first := FirstWin(cfg.learner, root).value;
      assert [] + PathChoices(root, first) == PathChoices(root, first);
    }
  }

  // ---------------------------------------------------- root-choice reports

  /** The reports of the root choices added up, with the search's own ceiling. */
  function SumReports(reports: seq<RootChoiceReport>): TreeCounts
  {
    if reports == [] then NO_LEAVES
    else
      var r := reports[|reports| - 1];
      SumReports(reports[..|reports| - 1]).Merge(
        TreeCounts(r.complete, r.totalLeaves, r.learnerWins, r.opponentWins, r.draws, r.nextUntap, 0, r.searchLimit,
                   r.safetyLimit))
  }

  lemma {:induction false} InnerNodesReportNothing(cfg: Config, s: Search, t: Tree, events: seq<string>,
                                                   branch: seq<ScriptedChoice>)
    requires Shaped(t) && branch != [] && Explore(cfg, s, t, events, branch).Success?
    ensures Explore(cfg, s, t, events, branch).value.0.rootChoices == s.rootChoices
    decreases t, if t.Decision? then |t.edges| + 1 else 0
  {
    if t.Decision? {
      var s1 := AtRoot(AfterReplay(s, |branch|), t.point, events, branch);
      if !OverBudget(cfg, s1, t.point, branch) && NodeKey(cfg, t.point, |branch|) !in s1.memo {
        InnerNodesReportNothingFrom(cfg, Expanding(s1, t.point), t, events, branch, 0, NO_LEAVES);
      }
    }
  }

  lemma {:induction false} InnerNodesReportNothingFrom(cfg: Config, s: Search, t: Tree, events: seq<string>,
                                                       branch: seq<ScriptedChoice>, i: nat, totals: TreeCounts)
    requires Shaped(t) && branch != [] && t.Decision? && i <= |t.edges|
    requires ExploreFrom(cfg, s, t, events, branch, i, totals).Success?
    ensures ExploreFrom(cfg, s, t, events, branch, i, totals).value.0.rootChoices == s.rootChoices
    decreases t, |t.edges| - i
  {
    if i < |t.edges| {
      var choice := Choices(t.point)[i];
      InnerNodesReportNothing(cfg, s, t.edges[i].next, events + t.edges[i].emitted, branch + [choice]);
      var (s1, c) := Explore(cfg, s, t.edges[i].next, events + t.edges[i].emitted, branch + [choice]).value;
      InnerNodesReportNothingFrom(cfg, Reported(s1, branch, choice, c), t, events, branch, i + 1, totals.Merge(c));
    }
  }

  lemma {:induction false} RootReportsAddUpFrom(cfg: Config, s: Search, t: Tree, events: seq<string>, i: nat,
                                                totals: TreeCounts)
    requires Shaped(t) && t.Decision? && i <= |t.edges| && |s.rootChoices| == i
    requires ExploreFrom(cfg, s, t, events, [], i, totals).Success?
    requires SumReports(s.rootChoices) == totals.(turnLimit := 0)
    requires forall j | 0 <= j < i :: s.rootChoices[j].choice == Choices(t.point)[j]
    ensures var (s', c) := ExploreFrom(cfg, s, t, events, [], i, totals).value;
            && SumReports(s'.rootChoices) == c.(turnLimit := 0)
            && |s'.rootChoices| == |t.edges| && (forall j | 0 <= j < |t.edges| ::
                                                 s'.rootChoices[j].choice == Choices(t.point)[j])
    decreases |t.edges| - i
  {
    if i < |t.edges| {
      var choice := Choices(t.point)[i];
      InnerNodesReportNothing(cfg, s, t.edges[i].next, events + t.edges[i].emitted, [] + [choice]);
      var (s1, c) := Explore(cfg, s, t.edges[i].next, events + t.edges[i].emitted, [] + [choice]).value;
      var s2 := Reported(s1, [], choice, c);
      OneEdgeFurther(cfg, s, t, events, [], i, totals);
      assert s2.rootChoices[..|s2.rootChoices| - 1] == s.rootChoices;
      RootReportsAddUpFrom(cfg, s2, t, events, i + 1, totals.Merge(c));
    }
  }

  /** An expanded root has one report for each of its choices, in order, and the
      reports add up to the tree's own totals. */
  lemma RootReportsAddUp(cfg: Config, root: Tree, rootEvents: seq<string>)
    requires Shaped(root) && root.Decision? && Explore(cfg, FRESH_SEARCH, root, rootEvents, []).Success?
    ensures var (s, c) := Explore(cfg, FRESH_SEARCH, root, rootEvents, []).value;
            if OverBudget(cfg, FRESH_SEARCH, root.point, []) then s.rootChoices == [] && c == SEARCH_LIMIT_LEAF
            else && |s.rootChoices| == |root.edges|
                 && (forall j | 0 <= j < |root.edges| :: s.rootChoices[j].choice == Choices(root.point)[j])
                 && SumReports(s.rootChoices) == c.(turnLimit := 0)
  {
    if !OverBudget(cfg, FRESH_SEARCH, root.point, []) {
      var s1 := AtRoot(AfterReplay(FRESH_SEARCH, 0), root.point, rootEvents, []);
      RootReportsAddUpFrom(cfg, Expanding(s1, root.point), root, rootEvents, 0, NO_LEAVES);
    }
  }
}
