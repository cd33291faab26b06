/** Search turn by turn: every segment of the game is searched up to the
    learner's next untap; without a win, a random line to that untap becomes the
    prefix of the next segment. */
module SegmentSearch {
  import opened Wrappers
  import opened EngineTree
  import opened ReplayProviders
  import opened TreeSearch
  import opened SearchProofs
  import opened SearchWitness
  import opened SearchContexts

  /** The whole game. `TurnStarted` marks the moment after a turn's untap step. */
  datatype GameTree =
    | Over(winner: Option<string>, turn: nat)
    | OutOfTurns(turn: nat)
    | Choice(point: Point, edges: seq<GameEdge>)
    | TurnStarted(turn: nat, learnersTurn: bool, winner: Option<string>, next: GameTree)
    | Broken(message: string)

  datatype GameEdge = GameEdge(emitted: seq<string>, next: GameTree)

  /** What `run_until_next_untap` shows of the game when told to stop at the
      learner's first untap after turn `afterTurn`. */
  function Segment(g: GameTree, afterTurn: nat): Tree
  {
    match g
    case Over(winner, turn) => Leaf(GameEnded, winner, turn)
    case OutOfTurns(turn) => Leaf(TurnLimitReached, None, turn)
    case Broken(message) => Crash(message)
    case TurnStarted(turn, learnersTurn, winner, next) =>
      if learnersTurn && turn > afterTurn then Leaf(Reached, winner, turn) else Segment(next, afterTurn)
    case Choice(p, edges) =>
      Decision(p, seq(|edges|, i requires 0 <= i < |edges| =>
                      Edge(edges[i].emitted, Segment(edges[i].next, afterTurn))))
  }

  /** The engine's contract: decisions have one continuation per offer, and
      repeated offers agree, wherever the game is cut. */
  ghost predicate Playable(g: GameTree)
  {
    forall r: nat :: Shaped(Segment(g, r)) && RepeatsAgree(Segment(g, r))
  }

  /** The game can be played along the path to that place, before any turn of the
      learner has started that is later than `afterTurn`. */
  predicate PlaysTo(g: GameTree, path: seq<nat>, place: GameTree, afterTurn: nat)
    decreases g
  {
    || (path == [] && g == place)
    || match g
       case TurnStarted(turn, learnersTurn, _, next) =>
         !(learnersTurn && turn > afterTurn) && PlaysTo(next, path, place, afterTurn)
       case Choice(_, edges) =>
         path != [] && path[0] < |edges| && PlaysTo(edges[path[0]].next, path[1..], place, afterTurn)
       case _ => false
  }

  /** Where a path through a segment ends is what the game itself says: at its end, at
      the turn limit, or at the first later turn of the learner. */
  lemma {:induction false} SegmentEndsIff(g: GameTree, afterTurn: nat, path: seq<nat>, boundary: Boundary,
                                          winner: Option<string>, turn: nat)
    ensures Follow(Segment(g, afterTurn), path) == Some(Leaf(boundary, winner, turn)) <==>
            match boundary
            case GameEnded => PlaysTo(g, path, Over(winner, turn), afterTurn)
            case TurnLimitReached => winner.None? && PlaysTo(g, path, OutOfTurns(turn), afterTurn)
            case Reached =>
              turn > afterTurn && exists next :: PlaysTo(g, path, TurnStarted(turn, true, winner, next), afterTurn)
    decreases g
  {
    match g {
      case TurnStarted(n, learnersTurn, w, next) =>
        if learnersTurn && n > afterTurn {
          if path == [] && boundary.Reached? && turn == n && winner == w {
            assert PlaysTo(g, path, TurnStarted(turn, true, winner, next), afterTurn);
          }
        } else {
          SegmentEndsIff(next, afterTurn, path, boundary, winner, turn);
          if boundary.Reached? && turn > afterTurn {
            forall rest
              ensures PlaysTo(g, path, TurnStarted(turn, true, winner, rest), afterTurn)
                      <==> PlaysTo(next, path, TurnStarted(turn, true, winner, rest), afterTurn)
            {
            }
          }
        }
      case Choice(p, edges) =>
        if path != [] && path[0] < |edges| {
          assert Segment(g, afterTurn).edges[path[0]].next == Segment(edges[path[0]].next, afterTurn);
          SegmentEndsIff(edges[path[0]].next, afterTurn, path[1..], boundary, winner, turn);
          forall rest
            ensures PlaysTo(g, path, TurnStarted(turn, true, winner, rest), afterTurn)
                    <==> PlaysTo(edges[path[0]].next, path[1..], TurnStarted(turn, true, winner, rest), afterTurn)
          {
          }
        }
      case Over(_, _) =>
      case OutOfTurns(_) =>
      case Broken(_) =>
    }
  }

  lemma {:induction false} UntapIsLater(g: GameTree, afterTurn: nat, events: seq<string>, line: seq<ScriptedChoice>)
    requires Shaped(Segment(g, afterTurn)) && Descend(Segment(g, afterTurn), events, line).Some?
    requires var leaf := Descend(Segment(g, afterTurn), events, line).value.0; leaf.Leaf? && leaf.boundary.Reached?
    ensures Descend(Segment(g, afterTurn), events, line).value.0.turn > afterTurn
    decreases g
  {
    match g {
      case TurnStarted(turn, learnersTurn, winner, next) =>
        if !(learnersTurn && turn > afterTurn) {
          UntapIsLater(next, afterTurn, events, line);
        }
      case Choice(p, edges) =>
        var i := Answer(p, line[0]).value;
        assert Segment(g, afterTurn).edges[i].next == Segment(edges[i].next, afterTurn);
        UntapIsLater(edges[i].next, afterTurn, events + edges[i].emitted, line[1..]);
      case Over(_, _) =>
      case OutOfTurns(_) =>
      case Broken(_) =>
    }
  }

  /** A line that stopped at an untap on turn n goes on, under the later cut n,
      to the game behind that untap, with the same events. */
  lemma {:induction false} UntapLineContinues(g: GameTree, afterTurn: nat, events: seq<string>,
                                              line: seq<ScriptedChoice>)
    returns (rest: GameTree)
    requires Shaped(Segment(g, afterTurn)) && Descend(Segment(g, afterTurn), events, line).Some?
    requires var leaf := Descend(Segment(g, afterTurn), events, line).value.0;
             leaf.Leaf? && leaf.boundary.Reached? && Shaped(Segment(g, leaf.turn))
    ensures var (leaf, events') := Descend(Segment(g, afterTurn), events, line).value;
            leaf.turn > afterTurn && Descend(Segment(g, leaf.turn), events, line)
                == Some((Segment(rest, leaf.turn), events'))
    decreases g
  {
    match g {
      case TurnStarted(turn, learnersTurn, winner, next) =>
        if learnersTurn && turn > afterTurn {
          assert line == [];
          rest := next;
        } else {
          UntapIsLater(g, afterTurn, events, line);
          rest := UntapLineContinues(next, afterTurn, events, line);
        }
      case Choice(p, edges) =>
        var i := Answer(p, line[0]).value;
        assert Segment(g, afterTurn).edges[i].next == Segment(edges[i].next, afterTurn);
        ghost var n := Descend(Segment(g, afterTurn), events, line).value.0.turn;
        assert Segment(g, n).edges[i].next == Segment(edges[i].next, n);
        rest := UntapLineContinues(edges[i].next, afterTurn, events + edges[i].emitted, line[1..]);
      case Over(_, _) => assert false;
      case OutOfTurns(_) => assert false;
      case Broken(_) => assert false;
    }
  }

  /** A line that ends the game still does under every later cut: it is a line
      of the game itself, not of one segment. */
  lemma {:induction false} EndedLineIsALineOfTheGame(g: GameTree, afterTurn: nat, later: nat, events: seq<string>,
                                                     line: seq<ScriptedChoice>)
    requires afterTurn <= later && Shaped(Segment(g, afterTurn)) && Shaped(Segment(g, later))
    requires Descend(Segment(g, afterTurn), events, line).Some?
    requires var leaf := Descend(Segment(g, afterTurn), events, line).value.0; leaf.Leaf? && leaf.boundary.GameEnded?
    ensures Descend(Segment(g, later), events, line) == Descend(Segment(g, afterTurn), events, line)
    decreases g
  {
    match g {
      case TurnStarted(_, _, _, next) => EndedLineIsALineOfTheGame(next, afterTurn, later, events, line);
      case Choice(p, edges) =>
        var i := Answer(p, line[0]).value;
        assert Segment(g, afterTurn).edges[i].next == Segment(edges[i].next, afterTurn);
        assert Segment(g, later).edges[i].next == Segment(edges[i].next, later);
        EndedLineIsALineOfTheGame(edges[i].next, afterTurn, later, events + edges[i].emitted, line[1..]);
      case Over(_, _) =>
      case OutOfTurns(_) =>
      case Broken(_) =>
    }
  }

  datatype SegmentError =
    | NoSegments
    | RunFailed(message: string)
    | NoRootDecision
    | WitnessDidNotReplay
    | NoContinuableLeaf(turn: nat)
    | OutOfSegments

  datatype WitnessSource = ExhaustiveTree | RandomLeafAfterIncompleteSearch

  /** The winning line from the opening, and the segment it was found in. */
  datatype WinReport = WinReport(script: seq<ScriptedChoice>, source: WitnessSource, segmentIndex: nat,
                                 afterTurn: nat, priorChoices: nat)

  datatype SearchedSegment = SearchedSegment(counts: TreeCounts, winningBranch: Option<seq<ScriptedChoice>>,
                                             rootChoices: seq<RootChoiceReport>)

  /** One segment's search. The report is that of the direct search from the node
      the prefix leads to; if it met no search limit, its outcome counts are the
      plain ones, and in any case a branch is returned exactly when it has wins. */
  method SearchSegment(engine: Tree, opening: seq<string>, prefix: seq<ScriptedChoice>, cfg: Config)
    returns (r: Result<SearchedSegment, SegmentError>)
    requires Shaped(engine) && RepeatsAgree(engine) && Descend(engine, opening, prefix).Some?
    ensures var (root, events) := Descend(engine, opening, prefix).value;
            match TreeSearch.Explore(cfg, FRESH_SEARCH, root, events, [])
            case Failure(e) => r == Failure(RunFailed(e))
            case Success(done) =>
              r == if root.Decision? then Success(SearchedSegment(done.1, done.0.winningBranch, done.0.rootChoices))
                   else Failure(NoRootDecision)
    ensures r.Success? ==>
              var (root, events) := Descend(engine, opening, prefix).value;
              var s := r.value;
              && (s.winningBranch.Some? <==> s.counts.learnerWins > 0)
              && (s.winningBranch.Some? ==> WinsAt(cfg.learner, root, events, s.winningBranch.value))
              && (s.counts.complete && KeysFixFuture(cfg, root, events) && KeysFixPast(cfg, root, events) ==>
                    s.counts == PlainCount(cfg.learner, root, false).Clamped())
              && (s.counts.complete && KeysFixFuture(cfg, root, events) && s.winningBranch.None? ==>
                  FirstWin(cfg.learner, root).None?)
  {
    ghost var (root, events) := Descend(engine, opening, prefix).value;
    assert prefix + [] == prefix;
    DescendKeeps(engine, opening, prefix);
    var context := new SearchContext(engine, opening, prefix, cfg);
    var branch := new Branch();
    var counts := context.Explore(branch, root, events);
    if counts.Failure? {
      return Failure(RunFailed(counts.error));
    }
    RootSeenIffDecision(cfg, root, events);
    ExploreWitness(cfg, root, events, FRESH_SEARCH, root, events, []);
    if context.rootPoint.None? {
      return Failure(NoRootDecision);
    }
    if counts.value.complete && KeysFixFuture(cfg, root, events) && KeysFixPast(cfg, root, events) {
      SearchCountsTheTree(cfg, root, events, true);
    }
    if counts.value.complete && KeysFixFuture(cfg, root, events) {
      SearchCountsTheTree(cfg, root, events, false);
      NoWinIffNoneCounted(cfg.learner, root, false);
    }
    r := Success(SearchedSegment(counts.value, context.winningBranch, context.rootChoices));
  }

  lemma RootSeenIffDecision(cfg: Config, root: Tree, events: seq<string>)
    requires Shaped(root) && Explore(cfg, FRESH_SEARCH, root, events, []).Success?
    ensures Explore(cfg, FRESH_SEARCH, root, events, []).value.0.rootPoint.Some? <==> root.Decision?
  {
    if root.Decision? {
      var s1 := AtRoot(AfterReplay(FRESH_SEARCH, 0), root.point, events, []);
      if !OverBudget(cfg, s1, root.point, []) {
        RootPointStays(cfg, Expanding(s1, root.point), root, events, [], 0, NO_LEAVES);
      }
    }
  }

  lemma {:induction false} RootPointStays(cfg: Config, s: Search, t: Tree, events: seq<string>,
                                          branch: seq<ScriptedChoice>, i: nat, totals: TreeCounts)
    requires Shaped(t) && t.Decision? && i <= |t.edges| && s.rootPoint.Some?
    requires ExploreFrom(cfg, s, t, events, branch, i, totals).Success?
    ensures ExploreFrom(cfg, s, t, events, branch, i, totals).value.0.rootPoint == s.rootPoint
    decreases t, |t.edges| - i
  {
    if i < |t.edges| {
      var choice, next, events' := Choices(t.point)[i], t.edges[i].next, events + t.edges[i].emitted;
      RootPointStaysBelow(cfg, s, next, events', branch + [choice]);
      var (s1, c) := Explore(cfg, s, next, events', branch + [choice]).value;
      RootPointStays(cfg, Reported(s1, branch, choice, c), t, events, branch, i + 1, totals.Merge(c));
    }
  }

  lemma {:induction false} RootPointStaysBelow(cfg: Config, s: Search, t: Tree, events: seq<string>,
                                               branch: seq<ScriptedChoice>)
    requires Shaped(t) && s.rootPoint.Some? && Explore(cfg, s, t, events, branch).Success?
    ensures Explore(cfg, s, t, events, branch).value.0.rootPoint == s.rootPoint
    decreases t, if t.Decision? then |t.edges| + 1 else 0
  {
    if t.Decision? {
      var s1 := AfterReplay(s, |branch|);
      if !OverBudget(cfg, s1, t.point, branch) && NodeKey(cfg, t.point, |branch|) !in s1.memo {
        RootPointStays(cfg, Expanding(s1, t.point), t, events, branch, 0, NO_LEAVES);
      }
    }
  }

  /** A segment searched without finding a win. */
  datatype Passed = Passed(afterTurn: nat, prefix: seq<ScriptedChoice>, complete: bool)

  /** If its search was complete, and equal keys mean equal continuations, no leaf
      of the segment is a win. */
  ghost predicate RightlyPassed(g: GameTree, opening: seq<string>, cfg: Config, p: Passed)
    requires Playable(g)
  {
    var node := Descend(Segment(g, p.afterTurn), opening, p.prefix);
    && node.Some?
    && (p.complete && Shaped(node.value.0) && KeysFixFuture(cfg, node.value.0, node.value.1) ==>
        FirstWin(cfg.learner, node.value.0).None?)
  }

  /** Segments are passed in the order of the game, from its beginning. */
  ghost predicate OneAfterAnother(passed: seq<Passed>)
  {
    && (passed != [] ==> passed[0].afterTurn == 1 && passed[0].prefix == [])
    && forall i, j | 0 <= i < j < |passed| :: passed[i].afterTurn < passed[j].afterTurn
  }

  /** Some run of the segment fails, or does not use its whole script. */
  ghost predicate CanFail(cfg: Config, t: Tree, opening: seq<string>, prefix: seq<ScriptedChoice>)
    requires Shaped(t) && Descend(t, opening, prefix).Some?
  {
    var (root, events) := Descend(t, opening, prefix).value;
    || Explore(cfg, FRESH_SEARCH, root, events, []).Failure?
    || exists script, tape :: Fails(t, opening, script, tape)
  }

  ghost predicate Fails(t: Tree, opening: seq<string>, script: seq<ScriptedChoice>, tape: nat -> nat)
    requires Shaped(t)
  {
    var p := Play(t, opening, script, tape, 0);
    p.end.Failure? || p.consumed < |script|
  }

  /** The playout of an attempt gives nothing to go on from: it fails, or ends neither
      at an untap nor in a win. */
  ghost predicate DeadEnd(cfg: Config, t: Tree, opening: seq<string>, prefix: seq<ScriptedChoice>, tape: nat -> nat)
    requires Shaped(t)
  {
    var p := Play(t, opening, prefix, tape, 0);
    p.end.Success? ==> p.end.value.boundary != Reached && p.end.value.winner != Some(cfg.learner)
  }

  ghost predicate DeadEnds(cfg: Config, t: Tree, opening: seq<string>, prefix: seq<ScriptedChoice>,
                           tapes: (nat, nat) -> (nat -> nat), segment: nat, attempts: nat)
    requires Shaped(t)
  {
    forall n: nat | n < attempts :: DeadEnd(cfg, t, opening, prefix, tapes(segment, n))
  }

  lemma RunCanFail(cfg: Config, t: Tree, opening: seq<string>, prefix: seq<ScriptedChoice>,
                   script: seq<ScriptedChoice>, tape: nat -> nat)
    requires Shaped(t) && Descend(t, opening, prefix).Some? && Fails(t, opening, script, tape)
    ensures CanFail(cfg, t, opening, prefix)
  {
  }

  /** A line from the prefix on that ends at an untap, or in a win. */
  ghost predicate CanContinue(cfg: Config, engine: Tree, opening: seq<string>, prefix: seq<ScriptedChoice>,
                              line: ReplayedSegment)
    requires Shaped(engine)
  {
    var end := line.finish;
    && prefix <= line.allChoices && (end.boundary == Reached || end.winner == Some(cfg.learner))
    && Descend(engine, opening, line.allChoices) == Some((Leaf(end.boundary, end.winner, end.turn), end.events))
  }

  method Attempt(engine: Tree, opening: seq<string>, prefix: seq<ScriptedChoice>, cfg: Config, tape: nat -> nat)
    returns (r: Result<Option<ReplayedSegment>, string>)
    requires Shaped(engine) && RepeatsAgree(engine)
    ensures r.Failure? ==> Fails(engine, opening, prefix, tape)
    ensures r == Success(None) ==> DeadEnd(cfg, engine, opening, prefix, tape)
    ensures r.Success? && r.value.Some? ==> CanContinue(cfg, engine, opening, prefix, r.value.value)
  {
    var replay := ReplaySegment(engine, opening, prefix, tape);
    if replay.Failure? {
      return Failure(replay.error);
    }
    TraceLeadsToEnd(engine, opening, prefix, tape, 0);
    if replay.value.finish.boundary == Reached || replay.value.finish.winner == Some(cfg.learner) {
      return Success(Some(replay.value));
    }
    return Success(None);
  }

  lemma OneMoreDeadEnd(cfg: Config, t: Tree, opening: seq<string>, prefix: seq<ScriptedChoice>,
                       tapes: (nat, nat) -> (nat -> nat), segment: nat, attempts: nat)
    requires Shaped(t) && DeadEnds(cfg, t, opening, prefix, tapes, segment, attempts)
    requires DeadEnd(cfg, t, opening, prefix, tapes(segment, attempts))
    ensures DeadEnds(cfg, t, opening, prefix, tapes, segment, attempts + 1)
  {
  }

  /** A random line of the segment that goes on from the prefix, in at most 128
      attempts. */
  method RandomLine(engine: Tree, opening: seq<string>, prefix: seq<ScriptedChoice>, cfg: Config,
                    tapes: (nat, nat) -> (nat -> nat), segment: nat)
    returns (r: Result<Option<ReplayedSegment>, string>)
    requires Shaped(engine) && RepeatsAgree(engine) && Descend(engine, opening, prefix).Some?
    ensures r.Failure? ==> CanFail(cfg, engine, opening, prefix)
    ensures r == Success(None) ==> DeadEnds(cfg, engine, opening, prefix, tapes, segment, 128)
    ensures r.Success? && r.value.Some? ==> CanContinue(cfg, engine, opening, prefix, r.value.value)
  {
    for attempt := 0 to 128
      invariant DeadEnds(cfg, engine, opening, prefix, tapes, segment, attempt)
    {
      r := Attempt(engine, opening, prefix, cfg, tapes(segment, attempt));
      if r.Failure? {
        RunCanFail(cfg, engine, opening, prefix, prefix, tapes(segment, attempt));
        return;
      }
      if r.value.Some? {
        return;
      }
      OneMoreDeadEnd(cfg, engine, opening, prefix, tapes, segment, attempt);
    }
    r := Success(None);
  }

  /** The line to a recorded win, replayed. That it replays to a victory is checked,
      and the check cannot fail; whatever is played later, it is a line of the game. */
  method WitnessLine(g: GameTree, afterTurn: nat, opening: seq<string>, prefix: seq<ScriptedChoice>,
                     branch: seq<ScriptedChoice>, cfg: Config, tape: nat -> nat)
    returns (script: seq<ScriptedChoice>)
    requires Playable(g) && Descend(Segment(g, afterTurn), opening, prefix).Some?
    requires var (root, events) := Descend(Segment(g, afterTurn), opening, prefix).value;
             WinsAt(cfg.learner, root, events, branch)
    ensures script == prefix + branch && Descend(Segment(g, afterTurn), opening, script).Some?
    ensures var end := Descend(Segment(g, afterTurn), opening, script).value.0;
            end.Leaf? && end.boundary.GameEnded? && end.winner == Some(cfg.learner)
    ensures forall later: nat | afterTurn <= later ::
              Descend(Segment(g, later), opening, script) == Descend(Segment(g, afterTurn), opening, script)
  {
    var engine := Segment(g, afterTurn);
    script := prefix + branch;
    DescendAppend(engine, opening, prefix, branch);
    PlayFollowsPath(engine, opening, script, tape, 0);
    var replay := ReplaySegment(engine, opening, script, tape);
    if replay.Failure? {
      assert false;
    } else if replay.value.finish.boundary != GameEnded || replay.value.finish.winner != Some(cfg.learner) {
      // The source's WitnessDidNotReplay error.
      assert false;
    }
    forall later: nat | afterTurn <= later
      ensures Descend(Segment(g, later), opening, script) == Descend(engine, opening, script)
    {
      EndedLineIsALineOfTheGame(g, afterTurn, later, opening, script);
    }
  }

  /** The error is what happened in the segment: its search or a run failed, it offers
      no decision, or none of 128 random lines from the prefix can be continued. */
  ghost predicate RightlyFailed(g: GameTree, opening: seq<string>, cfg: Config, tapes: (nat, nat) -> (nat -> nat),
                                segment: nat, at: Passed, error: SegmentError)
    requires Playable(g)
  {
    var t := Segment(g, at.afterTurn);
    var node := Descend(t, opening, at.prefix);
    && node.Some?
    && match error
       case RunFailed(_) => CanFail(cfg, t, opening, at.prefix)
       case NoRootDecision => !node.value.0.Decision?
       case NoContinuableLeaf(turn) =>
         turn == at.afterTurn && DeadEnds(cfg, t, opening, at.prefix, tapes, segment, 128)
       case _ => false
  }

  /** The line leads from the game's opening to a learner victory; one found by the
      search is a line of the game whatever is played later. */
  ghost predicate IsWin(g: GameTree, opening: seq<string>, cfg: Config, w: WinReport)
    requires Playable(g)
  {
    var end := Descend(Segment(g, w.afterTurn), opening, w.script);
    && end.Some? && end.value.0.Leaf? && end.value.0.winner == Some(cfg.learner) && w.priorChoices <= |w.script|
    && (w.source.ExhaustiveTree? ==>
          && end.value.0.boundary.GameEnded?
          && forall later: nat | w.afterTurn <= later :: Descend(Segment(g, later), opening, w.script) == end)
  }

  datatype SegmentEnd = Won(report: WinReport) | Continues(line: ReplayedSegment)

  /** One turn of the loop over segments: the search, and without a win a random line
      to the next untap. `searched` says whether a search without a win was done, and
      `complete` whether it was complete. */
  method PlaySegment(g: GameTree, opening: seq<string>, prefix: seq<ScriptedChoice>, afterTurn: nat, cfg: Config,
                     tapes: (nat, nat) -> (nat -> nat), segment: nat)
    returns (r: Result<SegmentEnd, SegmentError>, ghost searched: bool, ghost complete: bool)
    requires Playable(g) && Descend(Segment(g, afterTurn), opening, prefix).Some?
    ensures searched ==> RightlyPassed(g, opening, cfg, Passed(afterTurn, prefix, complete))
    ensures r.Failure? ==>
              RightlyFailed(g, opening, cfg, tapes, segment, Passed(afterTurn, prefix, complete), r.error)
    ensures r.Failure? && r.error.NoContinuableLeaf? ==> searched
    ensures r.Success? && r.value.Continues? ==>
              && searched && CanContinue(cfg, Segment(g, afterTurn), opening, prefix, r.value.line)
              && r.value.line.finish.winner != Some(cfg.learner)
    ensures r.Success? && r.value.Won? ==>
              var w := r.value.report;
              && IsWin(g, opening, cfg, w) && (searched <==> w.source.RandomLeafAfterIncompleteSearch?)
              && w.segmentIndex == segment && w.afterTurn == afterTurn && w.priorChoices == |prefix|
  {
    searched, complete := false, false;
    var engine := Segment(g, afterTurn);
    var found := SearchSegment(engine, opening, prefix, cfg);
    if found.Failure? {
      return Failure(found.error), searched, complete;
    }
    if found.value.winningBranch.Some? {
      var script := WitnessLine(g, afterTurn, opening, prefix, found.value.winningBranch.value, cfg,
                                tapes(segment, 128));
      return Success(Won(WinReport(script, ExhaustiveTree, segment, afterTurn, |prefix|))), searched, complete;
    }
    searched, complete := true, found.value.counts.complete;
    var selected := RandomLine(engine, opening, prefix, cfg, tapes, segment);
    if selected.Failure? {
      return Failure(RunFailed(selected.error)), searched, complete;
    }
    if selected.value.None? {
      return Failure(NoContinuableLeaf(afterTurn)), searched, complete;
    }
    var line := selected.value.value;
    if line.finish.winner == Some(cfg.learner) {
      r := Success(Won(WinReport(line.allChoices, RandomLeafAfterIncompleteSearch, segment, afterTurn, |prefix|)));
      return;
    }
    r := Success(Continues(line));
  }

  /** The search over segments. A reported line is a line of the game from its
      opening to a learner victory; the check that a recorded witness replays
      to a victory never fails; no segment passed over after a complete search had a
      win; and an error is reported only for what happened in the last segment.
      `tapes` are the random draws of each attempt. */
  method FindWin(g: GameTree, opening: seq<string>, maximumSegments: nat, cfg: Config,
                 tapes: (nat, nat) -> (nat -> nat))
    returns (r: Result<WinReport, SegmentError>, ghost passed: seq<Passed>, ghost last: Passed)
    requires Playable(g)
    ensures OneAfterAnother(passed) && forall p | p in passed :: RightlyPassed(g, opening, cfg, p)
    ensures r.Success? ==>
              && IsWin(g, opening, cfg, r.value) && r.value.segmentIndex < maximumSegments
              && |passed| == r.value.segmentIndex + if r.value.source.ExhaustiveTree? then 0 else 1
    ensures maximumSegments == 0 <==> r == Failure(NoSegments)
    ensures r == Failure(OutOfSegments) ==> |passed| == maximumSegments
    ensures r.Failure? && r.error !in {NoSegments, OutOfSegments} ==>
              exists segment :: RightlyFailed(g, opening, cfg, tapes, segment, last, r.error)
  {
    passed, last := [], Passed(1, [], false);
    if maximumSegments == 0 {
      return Failure(NoSegments), passed, last;
    }
    var prefix: seq<ScriptedChoice> := [];
    var rootTurn: nat := 1;
    for segmentIndex := 0 to maximumSegments
      invariant Descend(Segment(g, rootTurn), opening, prefix).Some?
      invariant |passed| == segmentIndex && forall p | p in passed :: RightlyPassed(g, opening, cfg, p)
      invariant OneAfterAnother(passed) && forall p | p in passed :: p.afterTurn < rootTurn
      invariant passed == [] ==> rootTurn == 1 && prefix == []
    {
      var end;
      ghost var searched, complete;
      end, searched, complete := PlaySegment(g, opening, prefix, rootTurn, cfg, tapes, segmentIndex);
      last := Passed(rootTurn, prefix, complete);
      if searched {
        passed := passed + [last];
      }
      if end.Failure? {
        return Failure(end.error), passed, last;
      }
      if end.value.Won? {
        return Success(end.value.report), passed, last;
      }
      var line := end.value.line;
      ghost var rest := UntapLineContinues(g, rootTurn, opening, line.allChoices);
      prefix, rootTurn := line.allChoices, line.finish.turn;
    }
    r := Failure(OutOfSegments);
  }
}
