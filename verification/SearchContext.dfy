/** The search as it runs: every node is reached by restarting the engine and
    replaying a script, with one shared branch, one memo table and counters. */
module SearchContexts {
  import opened Wrappers
  import opened EngineTree
  import opened ReplayProviders
  import opened TreeSearch

  /** The branch vector that `explore` pushes to and pops from. */
  class Branch {
    var choices: seq<ScriptedChoice>

    constructor ()
      ensures choices == []
    {
      choices := [];
    }

    method Push(choice: ScriptedChoice)
      modifies this
      ensures choices == old(choices) + [choice]
    {
      choices := choices + [choice];
    }

    method Pop()
      requires choices != []
      modifies this
      ensures choices == old(choices[..|choices| - 1])
    {
      choices := choices[..|choices| - 1];
    }
  }

  datatype ReplayResult =
    | OpenDecision(pending: PendingBranch)
    | EndedAt(finish: Finish)

  class SearchContext {
    const engine: Tree
    const opening: seq<string>
    const prefix: seq<ScriptedChoice>
    const cfg: Config
    var memo: map<int, TreeCounts>
    var replayRuns: U64
    var uniqueNodes: U64
    var expandedEdges: U64
    var transpositionHits: U64
    var maximumObservedDepth: nat
    var rootEventCount: nat
    var rootPoint: Option<Point>
    var rootChoices: seq<RootChoiceReport>
    var winningBranch: Option<seq<ScriptedChoice>>
    ghost var leafVisits: nat
    ghost var limitStops: nat

    constructor (engine: Tree, opening: seq<string>, prefix: seq<ScriptedChoice>, cfg: Config)
      ensures this.engine == engine && this.opening == opening && this.prefix == prefix && this.cfg == cfg
      ensures State() == FRESH_SEARCH
    {
      this.engine, this.opening, this.prefix, this.cfg := engine, opening, prefix, cfg;
      memo, rootPoint, rootChoices, winningBranch := map[], None, [], None;
      replayRuns, uniqueNodes, expandedEdges, transpositionHits := 0, 0, 0, 0;
      maximumObservedDepth, rootEventCount := 0, 0;
      leafVisits, limitStops := 0, 0;
    }

    ghost function State(): Search
      reads this
    {
      Search(memo, replayRuns, uniqueNodes, expandedEdges, transpositionHits, maximumObservedDepth, rootEventCount,
             rootPoint, rootChoices, winningBranch, leafVisits, limitStops)
    }

    /** One run from the start along prefix ++ branch. */
    method Replay(branch: seq<ScriptedChoice>) returns (r: Result<ReplayResult, string>)
      requires Shaped(engine)
      modifies this`replayRuns
      ensures replayRuns == SaturatingAdd(old(replayRuns), 1)
      ensures match Run(engine, opening, prefix + branch)
              case AtLeaf(b, w, n, events) => r == Success(EndedAt(Finish(b, w, n, events)))
              case AtDecision(p, _, events) => r == Success(OpenDecision(PendingBranch(p, events, Choices(p))))
              case Failed(message) => r == Failure(SearchError(message))
    {
      replayRuns := SaturatingAdd(replayRuns, 1);
      var provider := new BranchingReplayProvider(prefix + branch);
      var result := DriveBranching(engine, opening, provider);
      match result {
        case Success(finish) => r := Success(EndedAt(finish));
        case Failure(error) =>
          if error == SEARCH_BRANCH_SIGNAL {
            if provider.pending.None? {
              return Failure(NO_PENDING_DECISION);
            }
            r := Success(OpenDecision(provider.pending.value));
          } else {
            r := Failure(error);
          }
      }
    }

    /** The run along a branch, told in terms of the node the branch leads to. */
    method Revisit(branch: seq<ScriptedChoice>, ghost t: Tree, ghost events: seq<string>)
      returns (r: Result<ReplayResult, string>)
      requires Shaped(engine) && Descend(engine, opening, prefix + branch) == Some((t, events))
      modifies this`replayRuns, this`maximumObservedDepth
      ensures State() == AfterReplay(old(State()), |branch|)
      ensures match t
              case Leaf(b, w, n) => r == Success(EndedAt(Finish(b, w, n, events)))
              case Crash(message) => r == Failure(SearchError(message))
              case Decision(p, _) =>
                r == if p.request == NumberRange(None) then Failure(NOT_A_NUMBER)
                     else Success(OpenDecision(PendingBranch(p, events, Choices(p))))
    {
      if |branch| > maximumObservedDepth {
        maximumObservedDepth := |branch|;
      }
      RunResumes(engine, opening, prefix + branch, []);
      assert prefix + branch + [] == prefix + branch;
      r := Replay(branch);
    }

    /** Exploring a branch by replay does to this context, and returns, exactly
        what direct descent into the node (t, events) at that branch does. */
    method Explore(branch: Branch, ghost t: Tree, ghost events: seq<string>) returns (r: Result<TreeCounts, string>)
      requires Shaped(engine) && RepeatsAgree(engine)
      requires Descend(engine, opening, prefix + branch.choices) == Some((t, events))
      modifies this, branch
      ensures match TreeSearch.Explore(cfg, old(State()), t, events, old(branch.choices))
              case Failure(e) => r == Failure(e)
              case Success(done) => r == Success(done.1) && State() == done.0 && branch.choices == old(branch.choices)
      decreases t, 3
    {
      ghost var start := State();
      ghost var path := branch.choices;
      var replayed := Revisit(branch.choices, t, events);
      if replayed.Failure? {
        return Failure(replayed.error);
      }
      match replayed.value {
        case EndedAt(finish) =>
          leafVisits := leafVisits + 1;
          if finish.boundary.GameEnded? && finish.winner == Some(cfg.learner) && winningBranch.None? {
            winningBranch := Some(branch.choices);
          }
          r := Success(LeafCounts(cfg.learner, finish.boundary, finish.winner,
                                  LoopEnded(finish.events, rootEventCount)));
        case OpenDecision(pending) =>
          if rootPoint.None? && branch.choices == [] {
            rootEventCount := |pending.events|;
            rootPoint := Some(pending.point);
          }
          assert State() == AtRoot(AfterReplay(start, |path|), t.point, events, path);
          r := Visit(branch, pending, t, events);
      }
    }

    /** The part of `explore` behind an open decision. */
    method Visit(branch: Branch, pending: PendingBranch, ghost t: Tree, ghost events: seq<string>)
      returns (r: Result<TreeCounts, string>)
      requires Shaped(engine) && RepeatsAgree(engine)
      requires Descend(engine, opening, prefix + branch.choices) == Some((t, events))
      requires t.Decision? && pending.point == t.point && pending.choices == Choices(t.point)
      modifies this, branch
      ensures match TreeSearch.Visit(cfg, old(State()), t, events, old(branch.choices))
              case Failure(e) => r == Failure(e)
              case Success(done) => r == Success(done.1) && State() == done.0 && branch.choices == old(branch.choices)
      decreases t, 2
    {
      if || |branch.choices| >= cfg.limits.maximumDepth
         || |pending.choices| > cfg.limits.maximumChoicesPerNode
         || uniqueNodes >= cfg.limits.maximumUniqueNodes {
        limitStops := limitStops + 1;
        return Success(SEARCH_LIMIT_LEAF);
      }
      var key := NodeKey(cfg, pending.point, |branch.choices|);
      if key in memo {
        transpositionHits := SaturatingAdd(transpositionHits, 1);
        return Success(memo[key]);
      }
      uniqueNodes := SaturatingAdd(uniqueNodes, 1);
      expandedEdges := SaturatingAdd(expandedEdges, |pending.choices|);
      r := ExploreChoices(branch, pending.choices, t, events);
      if r.Success? {
        memo := memo[key := r.value];
      }
    }

    /** One turn of that loop: push, explore, pop, and report at the root. */
    method ExploreChoice(branch: Branch, choice: ScriptedChoice, isRoot: bool, ghost t: Tree,
                         ghost events: seq<string>, ghost i: nat)
      returns (r: Result<TreeCounts, string>)
      requires Shaped(engine) && RepeatsAgree(engine)
      requires Descend(engine, opening, prefix + branch.choices) == Some((t, events))
      requires t.Decision? && i < |t.edges| && choice == Choices(t.point)[i] && (isRoot <==> branch.choices == [])
      modifies this, branch
      ensures match TreeSearch.Explore(cfg, old(State()), t.edges[i].next, events + t.edges[i].emitted,
                                       old(branch.choices) + [choice])
              case Failure(e) => r == Failure(e)
              case Success(done) =>
                && r == Success(done.1) && State() == Reported(done.0, old(branch.choices), choice, done.1)
                && branch.choices == old(branch.choices)
      decreases t, 0
    {
      PrefixedChild(engine, opening, prefix, branch.choices, t, events, i);
      ghost var path := branch.choices;
      branch.Push(choice);
      r := Explore(branch, t.edges[i].next, events + t.edges[i].emitted);
      if r.Success? {
        branch.Pop();
        assert branch.choices == path;
        if isRoot {
          rootChoices := rootChoices + [Report(choice, r.value)];
        }
      }
    }

    /** The loop of `explore` over the choices of a newly expanded decision. */
    method ExploreChoices(branch: Branch, choices: seq<ScriptedChoice>, ghost t: Tree, ghost events: seq<string>)
      returns (r: Result<TreeCounts, string>)
      requires Shaped(engine) && RepeatsAgree(engine)
      requires Descend(engine, opening, prefix + branch.choices) == Some((t, events))
      requires t.Decision? && choices == Choices(t.point)
      modifies this, branch
      ensures match ExploreFrom(cfg, old(State()), t, events, old(branch.choices), 0, NO_LEAVES)
              case Failure(e) => r == Failure(e)
              case Success(done) => r == Success(done.1) && State() == done.0 && branch.choices == old(branch.choices)
      decreases t, 1
    {
      ghost var path := branch.choices;
      ghost var whole := ExploreFrom(cfg, State(), t, events, path, 0, NO_LEAVES);
      var totals := NO_LEAVES;
      var isRoot := branch.choices == [];
      for i := 0 to |choices|
        invariant branch.choices == path
        invariant whole == ExploreFrom(cfg, State(), t, events, path, i, totals)
      {
        var child := ExploreChoice(branch, choices[i], isRoot, t, events, i);
        if child.Failure? {
          return Failure(child.error);
        }
        totals := totals.Merge(child.value);
      }
      r := Success(totals);
    }
  }

  /** Behind any prefix, a branch extended by an offered choice leads to that
      choice's child. */
  lemma PrefixedChild(engine: Tree, opening: seq<string>, prefix: seq<ScriptedChoice>, path: seq<ScriptedChoice>,
                      t: Tree, events: seq<string>, i: nat)
    requires Shaped(engine) && RepeatsAgree(engine)
    requires Descend(engine, opening, prefix + path) == Some((t, events)) && t.Decision? && i < |t.edges|
    ensures Descend(engine, opening, prefix + (path + [Choices(t.point)[i]]))
              == Some((t.edges[i].next, events + t.edges[i].emitted))
  {
    var choice := Choices(t.point)[i];
    DescendKeeps(engine, opening, prefix + path);
    ChoicesLandIffRepeatsAgree(t, events);
    DescendAppend(engine, opening, prefix + path, [choice]);
    assert prefix + path + [choice] == prefix + (path + [choice]);
  }
}
