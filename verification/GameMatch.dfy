/** A session's match: games played turn by turn with recovery from failures,
    until a player has won enough of them. */
module GameMatch {
  import opened Wrappers
  import opened Sequences

  const MAX_SESSION_RECOVERIES_PER_CHECKPOINT: nat := 3

  datatype GameMode = Free | Legacy | Commander | DuelCommander | Training | Training2

  /** `resolve_session_best_of`. */
  function ResolveBestOf(mode: GameMode, requested: Option<nat>): (r: Result<nat, string>)
    ensures r.Success? && requested.Some? ==> r.value == requested.value
    ensures requested.None? ==> r == Success(match mode case Legacy => 3 case _ => 1)
    ensures r.Success? <==>
            (requested.None? || requested.value == 1 || (mode.Legacy? && requested.value in {3, 5, 7}))
    ensures r.Success? ==> r.value in {1, 3, 5, 7} && 2 * GamesToWin(r.value) - 1 == r.value
    ensures r.Success? && !mode.Legacy? ==> r.value == 1
  {
    var bestOf := if requested.Some? then requested.value else if mode.Legacy? then 3 else 1;
    if bestOf != 1 && bestOf != 3 && bestOf != 5 && bestOf != 7 then Failure("bestOf must be one of 1, 3, 5 or 7")
    else if !mode.Legacy? && bestOf != 1 then Failure("only Legacy supports multi-game series")
    else Success(bestOf)
  }

  function GamesToWin(bestOf: nat): nat
  {
    bestOf / 2 + 1
  }

  // --------------------------------------------------------- engine attempts

  /** An engine state: its turn, its outcome (with a winner or drawn), the ids of its
      players, the rest. */
  datatype Engine = Engine(turn: nat, outcome: Option<Option<string>>, seats: set<string>, position: string)

  /** What one attempt to go on from an engine state does: the state it leaves
      (damaged or not), what it adds to the analytics logs, and how it ended. */
  datatype Attempt = Attempt(next: Engine, observations: seq<string>, snapshots: seq<string>, error: Option<string>,
                             cancelled: bool)

  /** The world answers an attempt from a state at a time. */
  type World = (Engine, nat) -> Attempt

  /** The contract of `run_next_turn`: an undecided game within its turns is decided
      or advances its turn. A game that is over comes back as it is. */
  ghost predicate TurnsAdvance(turns: World, maxTurns: nat)
  {
    forall e: Engine, n: nat | e.outcome.None? && e.turn <= maxTurns && turns(e, n).error.None? ::
      turns(e, n).next.outcome.Some? || turns(e, n).next.turn > e.turn
  }

  function Winner(e: Engine): Option<string>
  {
    if e.outcome.Some? then e.outcome.value else None
  }

  predicate WinnerSeated(e: Engine)
  {
    Winner(e).Some? ==> Winner(e).value in e.seats
  }

  /** The engine keeps its players, and only one of them can win. */
  ghost predicate KeepsSeats(world: World)
  {
    forall e: Engine, n: nat | WinnerSeated(e) && world(e, n).error.None? ::
      world(e, n).next.seats == e.seats && WinnerSeated(world(e, n).next)
  }

  /** A new engine is undecided. */
  predicate Fresh(e: Engine, players: seq<string>)
  {
    e.outcome.None? && e.seats == set p | p in players
  }

  class ObservedProvider {
    var observations: seq<string>
    var snapshots: seq<string>

    constructor ()
      ensures observations == [] && snapshots == []
    {
      observations, snapshots := [], [];
    }

    method Observe(a: Attempt)
      modifies this
      ensures observations == old(observations) + a.observations && snapshots == old(snapshots) + a.snapshots
    {
      observations, snapshots := observations + a.observations, snapshots + a.snapshots;
    }

    function AnalyticsCheckpoint(): (nat, nat)
      reads this
    {
      (|observations|, |snapshots|)
    }

    /** Forgets what was logged after the checkpoint, and nothing before it. */
    method RestoreAnalyticsCheckpoint(checkpoint: (nat, nat))
      modifies this
      ensures forall kept: seq<string> | kept <= old(observations) && |kept| == checkpoint.0 :: observations == kept
      ensures forall kept: seq<string> | kept <= old(snapshots) && |kept| == checkpoint.1 :: snapshots == kept
      ensures observations == if checkpoint.0 <= |old(observations)| then old(observations)[..checkpoint.0]
              else old(observations)
      ensures snapshots == if checkpoint.1 <= |old(snapshots)| then old(snapshots)[..checkpoint.1] else old(snapshots)
    {
      if checkpoint.0 <= |observations| {
        observations := observations[..checkpoint.0];
      }
      if checkpoint.1 <= |snapshots| {
        snapshots := snapshots[..checkpoint.1];
      }
    }

    method TakeAnalytics() returns (o: seq<string>, s: seq<string>)
      modifies this
      ensures o == old(observations) && s == old(snapshots) && observations == [] && snapshots == []
    {
      o, s := observations, snapshots;
      observations, snapshots := [], [];
    }
  }

  /** One checkpoint's recovery loop. Every attempt starts from the checkpoint; at
      most three fail, and none after a cancellation; on success the engine and the
      logs are those of the last attempt alone, on failure those of the checkpoint. */
  method RunWithRecovery(world: World, checkpoint: Engine, provider: ObservedProvider, clock: nat)
    returns (engine: Engine, error: Option<string>, now: nat)
    modifies provider
    ensures 1 <= now - clock <= 3
    ensures forall i | clock <= i < now - 1 :: world(checkpoint, i).error.Some? && !world(checkpoint, i).cancelled
    ensures var last := world(checkpoint, now - 1);
            if last.error.None? then
              && error == None && engine == last.next
              && provider.observations == old(provider.observations) + last.observations
              && provider.snapshots == old(provider.snapshots) + last.snapshots
            else
              && error.Some? && engine == checkpoint
              && (last.cancelled || now - clock == 3)
              && (last.cancelled ==> error == last.error)
              && provider.observations == old(provider.observations) && provider.snapshots == old(provider.snapshots)
  {
    engine, error, now := checkpoint, None, clock;
    var analyticsCheckpoint := provider.AnalyticsCheckpoint();
    var failures := 0;
    while true
      invariant engine == checkpoint && error == None && 0 <= failures < MAX_SESSION_RECOVERIES_PER_CHECKPOINT
                && now == clock + failures
      invariant provider.observations == old(provider.observations) && provider.snapshots == old(provider.snapshots)
      invariant forall i | clock <= i < now :: world(checkpoint, i).error.Some? && !world(checkpoint, i).cancelled
      decreases MAX_SESSION_RECOVERIES_PER_CHECKPOINT - failures
    {
      var attempt := world(engine, now);
      now := now + 1;
      engine := attempt.next;
      provider.Observe(attempt);
      if attempt.error.None? {
        return;
      }
      engine := checkpoint;
      provider.RestoreAnalyticsCheckpoint(analyticsCheckpoint);
      if attempt.cancelled {
        error := attempt.error;
        return;
      }
      failures := failures + 1;
      if failures >= MAX_SESSION_RECOVERIES_PER_CHECKPOINT {
        error := Some(attempt.error.value + "; failed after 3 recovery attempts");
        return;
      }
    }
  }

  // ------------------------------------------------------------------ a game

  /** A successful attempt of a game: where it started, when, and what it did. */
  datatype Played = Played(from: Engine, at: nat, attempt: Attempt)

  /** A game's successful attempts: the opening sequence, then turns, each from
      the state the one before left. */
  ghost predicate Chain(openings: World, turns: World, first: Engine, steps: seq<Played>)
    decreases |steps|
  {
    steps == [] ||
    var before, last := steps[..|steps| - 1], steps[|steps| - 1];
    && Chain(openings, turns, first, before)
    && last.from == Reached(first, before)
    && last.attempt == (if before == [] then openings else turns)(last.from, last.at)
    && last.attempt.error.None?
  }

  function Reached(first: Engine, steps: seq<Played>): Engine
  {
    if steps == [] then first else steps[|steps| - 1].attempt.next
  }

  function Observations(steps: seq<Played>): seq<string>
  {
    if steps == [] then [] else Observations(steps[..|steps| - 1]) + steps[|steps| - 1].attempt.observations
  }

  function Snapshots(steps: seq<Played>): seq<string>
  {
    if steps == [] then [] else Snapshots(steps[..|steps| - 1]) + steps[|steps| - 1].attempt.snapshots
  }

  /** Every step but the opening goes on from an undecided game within its turns. */
  ghost predicate GoesOn(steps: seq<Played>, maxTurns: nat)
  {
    forall i | 0 < i < |steps| :: steps[i].from.outcome.None? && steps[i].from.turn <= maxTurns
  }

  lemma GoesOnGrows(steps: seq<Played>, all: seq<Played>, maxTurns: nat)
    requires GoesOn(steps, maxTurns) && |all| == |steps| + 1 && steps == all[..|steps|]
    requires steps != [] ==> all[|steps|].from.outcome.None? && all[|steps|].from.turn <= maxTurns
    ensures GoesOn(all, maxTurns)
  {
    assert forall i | 0 <= i < |steps| :: all[i] == steps[i];
  }

  /** From the state after these steps, an attempt at the next one fails. */
  ghost predicate CannotGoOn(openings: World, turns: World, first: Engine, steps: seq<Played>)
  {
    var world, engine := if steps == [] then openings else turns, Reached(first, steps);
    exists at :: AttemptFails(world, engine, at)
  }

  ghost predicate AttemptFails(world: World, from: Engine, at: nat)
  {
    world(from, at).error.Some?
  }

  /** One more step of a game, the opening or a turn, with its recoveries. */
  method PlayStep(openings: World, turns: World, first: Engine, world: World, engine: Engine,
                  provider: ObservedProvider, clock: nat,
                  ghost steps: seq<Played>, ghost o: seq<string>, ghost s: seq<string>)
    returns (after: Engine, error: Option<string>, now: nat, ghost all: seq<Played>)
    requires Chain(openings, turns, first, steps) && engine == Reached(first, steps)
    requires world == if steps == [] then openings else turns
    requires provider.observations == o + Observations(steps) && provider.snapshots == s + Snapshots(steps)
    modifies provider
    ensures Chain(openings, turns, first, all) && after == Reached(first, all)
    ensures provider.observations == o + Observations(all) && provider.snapshots == s + Snapshots(all)
    ensures error.None? ==>
              all != [] && now > 0 && world(engine, now - 1).error.None? && after == world(engine, now - 1).next
    ensures error.None? ==> |all| == |steps| + 1 && steps == all[..|steps|] && all[|steps|].from == engine
    ensures error.Some? ==> all == steps && CannotGoOn(openings, turns, first, steps)
  {
    after, error, now := RunWithRecovery(world, engine, provider, clock);
    all := steps;
    if error.Some? {
      assert AttemptFails(world, engine, now - 1);
    } else {
      var attempt := world(engine, now - 1);
      Assoc(o, Observations(steps), attempt.observations);
      Assoc(s, Snapshots(steps), attempt.snapshots);
      all := steps + [Played(engine, now - 1, attempt)];
    }
  }

  /** One game: it ends decided or past its last turn, or with an error. Either
      way the engine state and the logs are those of the successful attempts,
      chained one to the next, and of nothing else. */
  method PlayGame(openings: World, turns: World, first: Engine, maxTurns: nat, provider: ObservedProvider, clock: nat)
    returns (engine: Engine, error: Option<string>, now: nat, ghost steps: seq<Played>)
    requires TurnsAdvance(turns, maxTurns)
    modifies provider
    ensures Chain(openings, turns, first, steps) && engine == Reached(first, steps)
    ensures provider.observations == old(provider.observations) + Observations(steps)
    ensures provider.snapshots == old(provider.snapshots) + Snapshots(steps)
    ensures error.None? ==> steps != [] && (engine.outcome.Some? || engine.turn > maxTurns)
    ensures error.Some? ==> CannotGoOn(openings, turns, first, steps)
    ensures GoesOn(steps, maxTurns)
  {
    ghost var o, s := provider.observations, provider.snapshots;
    steps := [];
    assert provider.observations + [] == provider.observations && provider.snapshots + [] == provider.snapshots;
    engine, error, now, steps := PlayStep(openings, turns, first, openings, first, provider, clock, steps, o, s);
    while error.None? && engine.outcome.None? && engine.turn <= maxTurns
      invariant error.None? ==> steps != []
      invariant GoesOn(steps, maxTurns) && (error.Some? ==> CannotGoOn(openings, turns, first, steps))
      invariant Chain(openings, turns, first, steps) && engine == Reached(first, steps)
      invariant provider.observations == o + Observations(steps) && provider.snapshots == s + Snapshots(steps)
      decreases error.None?, engine.outcome.None?, maxTurns - engine.turn
    {
      ghost var before := steps;
      engine, error, now, steps := PlayStep(openings, turns, first, turns, engine, provider, now, steps, o, s);
      if error.None? {
        GoesOnGrows(before, steps, maxTurns);
      }
    }
  }

  // ----------------------------------------------------------------- a match

  /** What a match is played with. `sideboarding` and `newGame` may fail; the
      latter is given the starting player and the game's number. */
  datatype Table = Table(
    players: seq<string>, mode: GameMode, bestOf: nat, maxTurns: nat,
    openings: World, turns: World,
    sideboarding: (Engine, nat) -> Option<string>,
    newGame: (nat, nat) -> Result<Engine, string>)
  {
    ghost predicate Accepted() {
      exists requested: Option<nat> :: ResolveBestOf(mode, requested) == Success(bestOf)
    }

    /** An accepted session, and an engine that keeps its contract. */
    ghost predicate Valid() {
      && players != [] && (forall i, j | 0 <= i < j < |players| :: players[i] != players[j])
      && Accepted() && TurnsAdvance(turns, maxTurns) && KeepsSeats(openings) && KeepsSeats(turns)
      && forall start, n | newGame(start, n).Success? :: Fresh(newGame(start, n).value, players)
    }
  }

  /** The first player that is not the winner opens the next game. */
  function NextStart(players: seq<string>, winner: string, start: nat): nat
    decreases |players|
  {
    if players == [] then start
    else
      var front := players[..|players| - 1];
      var earlier := NextStart(front, winner, |players|);
      if earlier < |front| then earlier else if players[|front|] != winner then |front| else start
  }

  lemma {:induction false} NextStartIsFirstOther(players: seq<string>, winner: string, start: nat)
    ensures var r := NextStart(players, winner, start);
            && ((exists i | 0 <= i < |players| :: players[i] != winner) ==>
                  r < |players| && players[r] != winner && forall i | 0 <= i < r :: players[i] == winner)
            && ((forall i | 0 <= i < |players| :: players[i] == winner) ==> r == start)
    decreases |players|
  {
    if players != [] {
      NextStartIsFirstOther(players[..|players| - 1], winner, |players|);
    }
  }

  /** A finished game: who opened it, its successful attempts, how it ended. */
  datatype Game = Game(start: nat, first: Engine, steps: seq<Played>, winner: Option<string>, error: Option<string>)

  ghost predicate GameFollowsRules(t: Table, g: Game)
  {
    && Fresh(g.first, t.players) && Chain(t.openings, t.turns, g.first, g.steps)
    && (forall w :: g.winner == Some(w) <==> g.error.None? && Reached(g.first, g.steps).outcome == Some(Some(w)))
    && GoesOn(g.steps, t.maxTurns)
    && if g.error.Some? then CannotGoOn(t.openings, t.turns, g.first, g.steps)
       else
         var end := Reached(g.first, g.steps);
         g.steps != [] && (end.outcome.Some? || end.turn > t.maxTurns)
  }

  /** The engine and opening player of the game after these. */
  ghost predicate Follows(t: Table, start0: nat, first0: Engine, games: seq<Game>, start: nat, first: Engine)
  {
    if games == [] then start == start0 && first == first0
    else
      var last := games[|games| - 1];
      && last.winner.Some?
      && start == NextStart(t.players, last.winner.value, last.start)
      && t.newGame(start, |games| + 1) == Success(first)
  }

  ghost predicate IsSeries(t: Table, start0: nat, first0: Engine, games: seq<Game>)
    decreases |games|
  {
    games == [] ||
    var before, last := games[..|games| - 1], games[|games| - 1];
    IsSeries(t, start0, first0, before) && Follows(t, start0, first0, before, last.start, last.first)
        && GameFollowsRules(t, last)
  }

  function Wins(games: seq<Game>, player: string): nat
  {
    if games == [] then 0
    else Wins(games[..|games| - 1], player) + if games[|games| - 1].winner == Some(player) then 1 else 0
  }

  datatype Report = Report(observations: seq<string>, snapshots: seq<string>, winner: Option<string>,
                           setWinner: Option<string>)

  /** What analytics receive: one report for each game that ended without error. */
  function Reports(games: seq<Game>, gamesToWin: nat): seq<Report>
  {
    if games == [] then []
    else
      var before, last := games[..|games| - 1], games[|games| - 1];
      if last.error.Some? then Reports(before, gamesToWin)
      else Reports(before, gamesToWin) + [ReportOf(games, gamesToWin)]
  }

  function ReportOf(games: seq<Game>, gamesToWin: nat): Report
    requires games != []
  {
    var last := games[|games| - 1];
    Report(Observations(last.steps), Snapshots(last.steps), last.winner,
           if last.winner.Some? && Wins(games, last.winner.value) >= gamesToWin then last.winner else None)
  }

  function TotalWins(games: seq<Game>, players: seq<string>): nat
  {
    if players == [] then 0 else TotalWins(games, players[..|players| - 1]) + Wins(games, players[|players| - 1])
  }

  lemma {:induction false} OneWinEach(games: seq<Game>, last: Game, players: seq<string>)
    requires last.winner.Some?
    requires forall i, j | 0 <= i < j < |players| :: players[i] != players[j]
    ensures TotalWins(games + [last], players) == TotalWins(games, players) + if last.winner.value in players then 1
            else 0
  {
    assert (games + [last])[..|games|] == games;
    if players != [] {
      OneWinEach(games, last, players[..|players| - 1]);
    }
  }

  /** While nobody has won the set, the games won so far are few. */
  lemma {:induction false} FewWins(games: seq<Game>, players: seq<string>, gamesToWin: nat)
    requires gamesToWin > 0 && forall i | 0 <= i < |players| :: Wins(games, players[i]) < gamesToWin
    ensures TotalWins(games, players) <= |players| * (gamesToWin - 1)
  {
    if players != [] {
      FewWins(games, players[..|players| - 1], gamesToWin);
      assert |players| * (gamesToWin - 1) == (|players| - 1) * (gamesToWin - 1) + (gamesToWin - 1);
    }
  }

  datatype Ended = SetWon(winner: string) | Undecided | Stopped(error: string)

  /** The state of a match between two games. */
  ghost predicate Between(t: Table, start0: nat, first0: Engine, games: seq<Game>, wins: map<string, nat>)
  {
    && IsSeries(t, start0, first0, games)
    && wins.Keys == (set p | p in t.players)
    && (forall p | p in t.players :: wins[p] == Wins(games, p))
    && TotalWins(games, t.players) == |games|
    && (forall g | g in games :: g.winner.Some?)
  }

  lemma SeriesGrows(t: Table, start0: nat, first0: Engine, games: seq<Game>, last: Game, gamesToWin: nat)
    requires IsSeries(t, start0, first0, games)
    requires Follows(t, start0, first0, games, last.start, last.first) && GameFollowsRules(t, last)
    ensures IsSeries(t, start0, first0, games + [last])
    ensures Reports(games + [last], gamesToWin)
            == if last.error.Some? then Reports(games, gamesToWin)
                else Reports(games, gamesToWin) + [ReportOf(games + [last], gamesToWin)]
  {
  }

  /** Nobody has won the set yet, and the next game is ready. */
  ghost predicate Midway(t: Table, start0: nat, first0: Engine, games: seq<Game>, wins: map<string, nat>, start: nat,
                         first: Engine)
  {
    && Between(t, start0, first0, games, wins)
    && Follows(t, start0, first0, games, start, first)
    && NobodyHasIt(t, wins)
  }

  ghost predicate NobodyHasIt(t: Table, wins: map<string, nat>)
  {
    forall p | p in wins :: wins[p] < GamesToWin(t.bestOf)
  }

  /** Why a match stops: its last game failed, or the next could not be prepared. */
  ghost predicate StopsWith(t: Table, games: seq<Game>, error: string)
    requires games != []
  {
    var last := games[|games| - 1];
    if last.error.Some? then last.error.value == error
    else
      && last.winner.Some?
      && match t.sideboarding(Reached(last.first, last.steps), |games|)
         case Some(e) => e == error
         case None => t.newGame(NextStart(t.players, last.winner.value, last.start), |games| + 1) == Failure(error)
  }

  /** What a match returns. */
  ghost predicate MatchResult(t: Table, start0: nat, first0: Engine, games: seq<Game>, wins: map<string, nat>,
                              ended: Ended)
  {
    && IsSeries(t, start0, first0, games)
    && 1 <= |games| <= |t.players| * (GamesToWin(t.bestOf) - 1) + 1
    && wins.Keys == (set p | p in t.players) && (forall p | p in t.players :: wins[p] == Wins(games, p))
    && (forall i | 0 <= i < |games| - 1 :: games[i].winner.Some?)
    && match ended
       case SetWon(w) =>
         && w in wins && wins[w] == GamesToWin(t.bestOf) && games[|games| - 1].winner == Some(w)
         && forall p | p in wins && p != w :: wins[p] < GamesToWin(t.bestOf)
       case Undecided => NobodyHasIt(t, wins) && games[|games| - 1].error.None? && games[|games| - 1].winner.None?
       case Stopped(e) => NobodyHasIt(t, wins) && StopsWith(t, games, e)
  }

  /** A game nobody won leaves the count as it was and ends the match. */
  lemma EndsWithoutWinner(t: Table, start0: nat, first0: Engine, games: seq<Game>, wins: map<string, nat>, last: Game,
                          ended: Ended)
    requires t.Valid() && Midway(t, start0, first0, games, wins, last.start, last.first)
    requires GameFollowsRules(t, last) && last.winner.None? && !ended.SetWon?
    requires if ended.Undecided? then last.error.None? else last.error == Some(ended.error)
    ensures MatchResult(t, start0, first0, games + [last], wins, ended)
  {
    SeriesGrows(t, start0, first0, games, last, 0);
    SameWins(games, last);
    FewGames(t, start0, first0, games, wins);
  }

  /** The count after a game with a winner. */
  function OneMoreWin(wins: map<string, nat>, winner: string): map<string, nat>
  {
    wins[winner := (if winner in wins then wins[winner] else 0) + 1]
  }

  lemma WinIsCounted(t: Table, start0: nat, first0: Engine, games: seq<Game>, wins: map<string, nat>, last: Game)
    requires t.Valid() && Between(t, start0, first0, games, wins)
             && Follows(t, start0, first0, games, last.start, last.first)
    requires GameFollowsRules(t, last) && last.winner.Some? && last.winner.value in t.players
    ensures Between(t, start0, first0, games + [last], OneMoreWin(wins, last.winner.value))
  {
    assert (games + [last])[..|games|] == games;
    OneWinEach(games, last, t.players);
  }

  /** While nobody has the set, few games have been played. */
  lemma FewGames(t: Table, start0: nat, first0: Engine, games: seq<Game>, wins: map<string, nat>)
    requires Between(t, start0, first0, games, wins) && NobodyHasIt(t, wins)
    ensures |games| <= |t.players| * (GamesToWin(t.bestOf) - 1)
  {
    FewWins(games, t.players, GamesToWin(t.bestOf));
  }

  /** A game with a winner adds one win, and only that one can complete the set. */
  lemma WinCompletesSet(t: Table, start0: nat, first0: Engine, games: seq<Game>, wins: map<string, nat>, last: Game)
    requires t.Valid() && Midway(t, start0, first0, games, wins, last.start, last.first)
    requires GameFollowsRules(t, last) && last.winner.Some? && last.winner.value in t.players
    ensures var w := last.winner.value;
            var after := OneMoreWin(wins, w);
            if after[w] < GamesToWin(t.bestOf) then NobodyHasIt(t, after)
            else MatchResult(t, start0, first0, games + [last], after, SetWon(w))
  {
    WinIsCounted(t, start0, first0, games, wins, last);
    FewGames(t, start0, first0, games, wins);
  }

  /** A match stopped between two games. */
  lemma StopsBetween(t: Table, start0: nat, first0: Engine, games: seq<Game>, wins: map<string, nat>, ended: Ended)
    requires t.Valid() && Between(t, start0, first0, games, wins) && NobodyHasIt(t, wins) && games != []
             && ended.Stopped? && StopsWith(t, games, ended.error)
    ensures MatchResult(t, start0, first0, games, wins, ended)
  {
    FewGames(t, start0, first0, games, wins);
  }

  lemma {:induction false} WinnerIsSeated(openings: World, turns: World, first: Engine, steps: seq<Played>)
    requires KeepsSeats(openings) && KeepsSeats(turns) && first.outcome.None? && Chain(openings, turns, first, steps)
    ensures Reached(first, steps).seats == first.seats && WinnerSeated(Reached(first, steps))
  {
    if steps != [] {
      WinnerIsSeated(openings, turns, first, steps[..|steps| - 1]);
    }
  }

  /** One game of a match, with the analytics it leaves. */
  method PlayAndReport(t: Table, start: nat, first: Engine, provider: ObservedProvider, clock: nat)
    returns (engine: Engine, error: Option<string>, now: nat, observations: seq<string>, snapshots: seq<string>,
             ghost game: Game)
    requires t.Valid() && Fresh(first, t.players) && provider.observations == [] && provider.snapshots == []
    modifies provider
    ensures GameFollowsRules(t, game) && game.start == start && game.first == first && game.error == error
    ensures engine == Reached(game.first, game.steps)
    ensures error.None? ==> game.winner == Winner(engine) && (game.winner.Some? ==> game.winner.value in t.players)
    ensures observations == Observations(game.steps) && snapshots == Snapshots(game.steps)
    ensures provider.observations == [] && provider.snapshots == []
  {
    ghost var steps;
    engine, error, now, steps := PlayGame(t.openings, t.turns, first, t.maxTurns, provider, clock);
    observations, snapshots := provider.TakeAnalytics();
    assert observations == Observations(steps) && snapshots == Snapshots(steps);
    game := Game(start, first, steps, if error.Some? then None else Winner(engine), error);
    if error.None? && Winner(engine).Some? {
      WinnerIsSeated(t.openings, t.turns, first, steps);
    }
  }

  /** Between two games: sideboarding, the next opening player, a new engine. */
  method PrepareNextGame(t: Table, winner: string, start: nat, engine: Engine, gameNumber: nat,
                         ghost start0: nat, ghost first0: Engine, ghost games: seq<Game>)
    returns (error: Option<string>, nextStart: nat, next: Engine)
    requires t.Valid() && gameNumber == |games|
    requires games != [] && games[|games| - 1].winner == Some(winner) && games[|games| - 1].start == start
    requires games[|games| - 1].error.None?
             && engine == Reached(games[|games| - 1].first, games[|games| - 1].steps)
    ensures error.None? ==> Follows(t, start0, first0, games, nextStart, next) && Fresh(next, t.players)
    ensures error.Some? ==> StopsWith(t, games, error.value)
  {
    nextStart, next := start, engine;
    error := t.sideboarding(engine, gameNumber);
    if error.None? {
      nextStart := NextStart(t.players, winner, start);
      match t.newGame(nextStart, gameNumber + 1) {
        case Success(e) => next := e;
        case Failure(message) => error := Some(message);
      }
    }
  }

  /** A match. It ends for every sequence of game results, within
      n * (gamesToWin - 1) + 1 games of n players; a set winner has exactly
      `gamesToWin` wins and everybody else fewer, and otherwise nobody has them.
      Analytics receive one report per error-free game, made of its successful
      attempts, and only the report of the deciding game names a set winner. */
  method PlayMatch(t: Table, start0: nat, first0: Engine, provider: ObservedProvider)
    returns (wins: map<string, nat>, ended: Ended, reports: seq<Report>, ghost games: seq<Game>)
    requires t.Valid() && Fresh(first0, t.players) && provider.observations == [] && provider.snapshots == []
    modifies provider
    ensures MatchResult(t, start0, first0, games, wins, ended) && reports == Reports(games, GamesToWin(t.bestOf))
  {
    games, reports := [], [];
    wins := map p | p in t.players :: 0;
    var gamesToWin := GamesToWin(t.bestOf);
    var engine, start, gameNumber, clock := first0, start0, 1, 0;
    NobodyHasWon(t.players);
    while true
      invariant Midway(t, start0, first0, games, wins, start, engine) && Fresh(engine, t.players)
      invariant gameNumber == |games| + 1 && reports == Reports(games, gamesToWin)
      invariant provider.observations == [] && provider.snapshots == []
      invariant |games| <= |t.players| * (gamesToWin - 1)
      decreases |t.players| * (gamesToWin - 1) - |games|
    {
      var error, observations, snapshots;
      ghost var last;
      engine, error, clock, observations, snapshots, last := PlayAndReport(t, start, engine, provider, clock);
      SeriesGrows(t, start0, first0, games, last, gamesToWin);
      ghost var before := games;
      games := games + [last];
      if error.Some? {
        ended := Stopped(error.value);
        EndsWithoutWinner(t, start0, first0, before, wins, last, ended);
        return;
      }
      var winner := Winner(engine);
      if winner.None? {
        reports := reports + [Report(observations, snapshots, None, None)];
        ended := Undecided;
        EndsWithoutWinner(t, start0, first0, before, wins, last, ended);
        return;
      }
      WinIsCounted(t, start0, first0, before, wins, last);
      WinCompletesSet(t, start0, first0, before, wins, last);
      wins := OneMoreWin(wins, winner.value);
      var setComplete := wins[winner.value] >= gamesToWin;
      reports := reports + [Report(observations, snapshots, winner, if setComplete then winner else None)];
      if setComplete {
        ended := SetWon(winner.value);
        return;
      }
      FewGames(t, start0, first0, games, wins);
      var failed;
      failed, start, engine := PrepareNextGame(t, winner.value, start, engine, gameNumber, start0, first0, games);
      if failed.Some? {
        ended := Stopped(failed.value);
        StopsBetween(t, start0, first0, games, wins, ended);
        return;
      }
      gameNumber := gameNumber + 1;
    }
  }

  lemma {:induction false} NobodyHasWon(players: seq<string>)
    ensures TotalWins([], players) == 0
  {
    if players != [] {
      NobodyHasWon(players[..|players| - 1]);
    }
  }

  lemma SameWins(games: seq<Game>, last: Game)
    requires last.winner.None?
    ensures forall p :: Wins(games + [last], p) == Wins(games, p)
  {
  }

  lemma {:induction false} StrangersNeverWin(t: Table, start0: nat, first0: Engine, games: seq<Game>, player: string)
    requires t.Valid() && IsSeries(t, start0, first0, games) && player !in t.players
    ensures Wins(games, player) == 0
  {
    if games != [] {
      var before, last := games[..|games| - 1], games[|games| - 1];
      StrangersNeverWin(t, start0, first0, before, player);
      if last.error.None? {
        WinnerIsSeated(t.openings, t.turns, last.first, last.steps);
      }
    }
  }

  lemma {:induction false} NoSetYet(games: seq<Game>, gamesToWin: nat)
    requires forall p :: Wins(games, p) < gamesToWin
    ensures forall r | r in Reports(games, gamesToWin) :: r.setWinner.None?
  {
    if games != [] {
      var before := games[..|games| - 1];
      forall p ensures Wins(before, p) < gamesToWin {
        assert Wins(before, p) <= Wins(games, p);
      }
      NoSetYet(before, gamesToWin);
    }
  }

  /** Analytics learn of the set winner exactly once, from the deciding game. */
  lemma OneReportNamesTheSetWinner(t: Table, start0: nat, first0: Engine, games: seq<Game>, wins: map<string, nat>,
                                   ended: Ended)
    requires t.Valid() && MatchResult(t, start0, first0, games, wins, ended)
    ensures var all := Reports(games, GamesToWin(t.bestOf));
            && (ended.SetWon? ==> all != [] && all[|all| - 1].setWinner == Some(ended.winner))
            && forall i | 0 <= i < |all| :: all[i].setWinner.Some? ==> ended.SetWon? && i == |all| - 1
  {
    var gamesToWin := GamesToWin(t.bestOf);
    var before := games[..|games| - 1];
    forall p
      ensures Wins(before, p) < gamesToWin
      ensures !ended.SetWon? ==> Wins(games, p) < gamesToWin
    {
      assert Wins(before, p) <= Wins(games, p);
      if p !in t.players {
        StrangersNeverWin(t, start0, first0, games, p);
      } else {
        assert wins[p] == Wins(games, p);
      }
    }
    NoSetYet(before, gamesToWin);
    if !ended.SetWon? {
      NoSetYet(games, gamesToWin);
    }
  }

  /** With two players a match is never longer than its name says, and each game
      after the first is opened by the loser of the one before. */
  lemma BestOfTwoPlayers(t: Table, start0: nat, first0: Engine, games: seq<Game>, i: nat)
    requires t.Accepted() && |t.players| == 2 && t.players[0] != t.players[1]
    requires IsSeries(t, start0, first0, games) && 0 < i < |games|
    ensures 2 * (GamesToWin(t.bestOf) - 1) + 1 == t.bestOf
    ensures games[i - 1].winner.Some? && games[i].start < 2
    ensures t.players[games[i].start] != games[i - 1].winner.value
    decreases |games|
  {
    var requested: Option<nat> :| ResolveBestOf(t.mode, requested) == Success(t.bestOf);
    var before := games[..|games| - 1];
    if i < |before| {
      BestOfTwoPlayers(t, start0, first0, before, i);
    } else {
      NextStartIsFirstOther(t.players, games[i - 1].winner.value, games[i - 1].start);
    }
  }

  /** Outside Legacy a match is one game. */
  lemma OnlyLegacyHasSeries(t: Table)
    requires t.Accepted() && !t.mode.Legacy?
    ensures GamesToWin(t.bestOf) == 1
  {
  }
}
