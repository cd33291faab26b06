/** The two decision providers that answer an engine run from a script: one
    stops at the first open decision, the other goes on at random. */
module ReplayProviders {
  import opened Wrappers
  import opened EngineTree

  const SEARCH_BRANCH_SIGNAL := "punching-bag-search-branch"
  const NO_PENDING_DECISION := "branch signal had no pending decision"
  const NO_LEGAL_OPTIONS := "decision request has no legal options"
  const NOT_A_NUMBER := "decision is not a number selection"
  const SCRIPT_NOT_CONSUMED := "segment replay did not consume its script"

  datatype PendingBranch = PendingBranch(point: Point, events: seq<string>, choices: seq<ScriptedChoice>)

  /** The engine's own return value: where it stopped and the final state. */
  datatype Finish = Finish(boundary: Boundary, winner: Option<string>, turn: nat, events: seq<string>)

  // ---------------------------------------------------------------- search

  class BranchingReplayProvider {
    const script: seq<ScriptedChoice>
    var cursor: nat
    var pending: Option<PendingBranch>

    constructor (script: seq<ScriptedChoice>)
      ensures this.script == script && cursor == 0 && pending == None
    {
      this.script := script;
      cursor := 0;
      pending := None;
    }

    ghost predicate Valid()
      reads this
    {
      cursor <= |script|
    }

    method NextScripted() returns (choice: Option<ScriptedChoice>)
      requires Valid()
      modifies this`cursor
      ensures Valid()
      ensures if old(cursor) < |script| then choice == Some(script[old(cursor)]) && cursor == old(cursor) + 1
              else choice == None && cursor == old(cursor)
    {
      if cursor < |script| {
        choice := Some(script[cursor]);
        cursor := cursor + 1;
      } else {
        choice := None;
      }
    }

    method Choose(point: Point, events: seq<string>) returns (selected: Result<nat, string>)
      requires Valid() && point.request.Actions?
      modifies this
      ensures Valid()
      ensures old(cursor) < |script| ==>
                selected == Answer(point, script[old(cursor)]) && cursor == old(cursor) + 1 && pending == old(pending)
      ensures old(cursor) == |script| ==>
                && selected == Failure(SEARCH_BRANCH_SIGNAL) && cursor == old(cursor)
                && pending == Some(PendingBranch(point, events, Choices(point)))
    {
      var next := NextScripted();
      if next.Some? {
        if !next.value.Action? {
          return Failure("replay expected a number but reached an action decision");
        }
        if next.value.decisionId != point.decisionId {
          return Failure("replay decision mismatch");
        }
        var position := FirstIndex(point.request.ids, next.value.actionId);
        if position.None? {
          return Failure("replay action is absent");
        }
        return Success(position.value);
      }
      pending := Some(PendingBranch(point, events, Choices(point)));
      selected := Failure(SEARCH_BRANCH_SIGNAL);
    }

    method ChooseNumber(point: Point, events: seq<string>) returns (value: Result<int, string>)
      requires Valid() && point.request.NumberRange?
      modifies this
      ensures Valid()
      ensures old(cursor) < |script| ==>
                && cursor == old(cursor) + 1 && pending == old(pending)
                && (match Answer(point, script[old(cursor)])
                    case Success(i) => point.request.bounds.Some? && value == Success(point.request.bounds.value.0 + i)
                    case Failure(e) => value == Failure(e))
      ensures old(cursor) == |script| ==>
                && cursor == old(cursor)
                && (if point.request.bounds.None? then value == Failure(NOT_A_NUMBER) && pending == old(pending)
                    else value == Failure(SEARCH_BRANCH_SIGNAL)
                         && pending == Some(PendingBranch(point, events, Choices(point))))
    {
      var next := NextScripted();
      if next.Some? {
        if !next.value.Number? {
          return Failure("replay expected an action but reached a number decision");
        }
        if next.value.decisionId != point.decisionId {
          return Failure("replay decision mismatch");
        }
        if point.request.bounds.None? {
          return Failure(NOT_A_NUMBER);
        }
        if !(point.request.bounds.value.0 <= next.value.value <= point.request.bounds.value.1) {
          return Failure("replay number is outside the range");
        }
        return Success(next.value.value);
      }
      if point.request.bounds.None? {
        return Failure(NOT_A_NUMBER);
      }
      pending := Some(PendingBranch(point, events, Choices(point)));
      value := Failure(SEARCH_BRANCH_SIGNAL);
    }
  }

  /** The engine's loop under the search's provider: it ends as `Run` says, and
      an open decision is left in the provider behind the branch signal. */
  method DriveBranching(root: Tree, opening: seq<string>, provider: BranchingReplayProvider)
    returns (r: Result<Finish, string>)
    requires Shaped(root) && provider.Valid() && provider.cursor == 0 && provider.pending == None
    modifies provider
    ensures match Run(root, opening, provider.script)
            case AtLeaf(b, w, n, events) => r == Success(Finish(b, w, n, events))
            case Failed(message) => r == Failure(message) && provider.pending == None
            case AtDecision(p, _, events) =>
              r == Failure(SEARCH_BRANCH_SIGNAL) && provider.pending == Some(PendingBranch(p, events, Choices(p)))
  {
    var t, events := root, opening;
    while t.Decision?
      invariant Shaped(t) && provider.Valid() && provider.pending == None
      invariant Run(root, opening, provider.script) == Run(t, events, provider.script[provider.cursor..])
      decreases t
    {
      var index: nat;
      ghost var rest := provider.script[provider.cursor..];
      assert rest != [] ==>
               rest[0] == provider.script[provider.cursor] && rest[1..] == provider.script[provider.cursor + 1..];
      if t.point.request.Actions? {
        var selected := provider.Choose(t.point, events);
        if selected.Failure? {
          return Failure(selected.error);
        }
        index := selected.value;
      } else {
        var value := provider.ChooseNumber(t.point, events);
        if value.Failure? {
          return Failure(value.error);
        }
        index := value.value - t.point.request.bounds.value.0;
      }
      t, events := t.edges[index].next, events + t.edges[index].emitted;
    }
    match t
    case Crash(message) => r := Failure(message);
    case Leaf(b, w, n) => r := Success(Finish(b, w, n, events));
  }

  // ------------------------------------------------- script, then random

  /** A whole run that answers from `script` and then from a tape of random
      draws: how it ended, the choices it recorded, and how many were scripted. */
  datatype Playback = Playback(end: Result<Finish, string>, trace: seq<ScriptedChoice>, consumed: nat)

  function Play(t: Tree, events: seq<string>, script: seq<ScriptedChoice>, tape: nat -> nat, draws: nat): (r: Playback)
    requires Shaped(t)
    decreases t
  {
    match t
    case Leaf(b, w, n) => Playback(Success(Finish(b, w, n, events)), [], 0)
    case Crash(message) => Playback(Failure(message), [], 0)
    case Decision(p, edges) =>
      if p.request == NumberRange(None) then Playback(Failure(NOT_A_NUMBER), [], 0)
      else if |edges| == 0 then Playback(Failure(NO_LEGAL_OPTIONS), [], 0)
      else if script != [] then
        match Answer(p, script[0])
        case Failure(e) => Playback(Failure(e), [], 1)
        case Success(i) =>
          var rest := Play(edges[i].next, events + edges[i].emitted, script[1..], tape, draws);
          Playback(rest.end, [script[0]] + rest.trace, 1 + rest.consumed)
      else
        var i := tape(draws) % |edges|;
        var rest := Play(edges[i].next, events + edges[i].emitted, [], tape, draws + 1);
        Playback(rest.end, [Choices(p)[i]] + rest.trace, rest.consumed)
  }

  /** A choice that lands on its own continuation, followed by a path there. */
  lemma StepThenPath(t: Tree, events: seq<string>, choice: ScriptedChoice, i: nat, path: seq<ScriptedChoice>)
    requires t.Decision? && Shaped(t) && i < |t.edges|
    requires Descend(t, events, [choice]) == Some((t.edges[i].next, events + t.edges[i].emitted))
    ensures Descend(t, events, [choice] + path) == Descend(t.edges[i].next, events + t.edges[i].emitted, path)
  {
    DescendAppend(t, events, [choice], path);
  }

  lemma ConsPrefix<T>(x: T, a: seq<T>, b: seq<T>, n: nat)
    requires n <= |a| && n <= |b| && a[..n] == b[..n]
    ensures ([x] + a)[..n + 1] == ([x] + b)[..n + 1]
  {
    assert ([x] + a)[..n + 1] == [x] + a[..n];
    assert ([x] + b)[..n + 1] == [x] + b[..n];
  }

  /** The recorded trace starts with the consumed script. */
  lemma {:induction false} TraceStartsWithScript(t: Tree, events: seq<string>, script: seq<ScriptedChoice>,
                                                 tape: nat -> nat, draws: nat)
    requires Shaped(t) && Play(t, events, script, tape, draws).end.Success?
    ensures var r := Play(t, events, script, tape, draws);
            && r.consumed <= |script| && r.consumed <= |r.trace| && r.trace[..r.consumed] == script[..r.consumed]
            && (r.consumed < |script| ==> |r.trace| == r.consumed)
    decreases t
  {
    if t.Decision? {
      if script != [] {
        var i := Answer(t.point, script[0]).value;
        var next, events' := t.edges[i].next, events + t.edges[i].emitted;
        TraceStartsWithScript(next, events', script[1..], tape, draws);
        var rest := Play(next, events', script[1..], tape, draws);
        ConsPrefix(script[0], script[1..], rest.trace, rest.consumed);
        assert script == [script[0]] + script[1..];
      } else {
        var i := tape(draws) % |t.edges|;
        TraceStartsWithScript(t.edges[i].next, events + t.edges[i].emitted, [], tape, draws + 1);
      }
    }
  }

  /** The recorded trace leads, choice by choice, to the leaf where the run ended. */
  lemma {:induction false} TraceLeadsToEnd(t: Tree, events: seq<string>, script: seq<ScriptedChoice>,
                                           tape: nat -> nat, draws: nat)
    requires Shaped(t) && RepeatsAgree(t) && Play(t, events, script, tape, draws).end.Success?
    ensures var r := Play(t, events, script, tape, draws);
            Descend(t, events, r.trace) ==
              Some((Leaf(r.end.value.boundary, r.end.value.winner, r.end.value.turn), r.end.value.events))
    decreases t
  {
    if t.Decision? {
      if script != [] {
        var i := Answer(t.point, script[0]).value;
        var next, events' := t.edges[i].next, events + t.edges[i].emitted;
        TraceLeadsToEnd(next, events', script[1..], tape, draws);
        StepThenPath(t, events, script[0], i, Play(next, events', script[1..], tape, draws).trace);
      } else {
        var i := tape(draws) % |t.edges|;
        var next, events' := t.edges[i].next, events + t.edges[i].emitted;
        TraceLeadsToEnd(next, events', [], tape, draws + 1);
        ChoicesLandIffRepeatsAgree(t, events);
        StepThenPath(t, events, Choices(t.point)[i], i, Play(next, events', [], tape, draws + 1).trace);
      }
    }
  }

  /** A run that follows a path down to a leaf ends in that leaf, records that
      path, and draws nothing, whatever the tape. */
  lemma {:induction false} PlayFollowsPath(t: Tree, events: seq<string>, path: seq<ScriptedChoice>, tape: nat -> nat,
                                           draws: nat)
    requires Shaped(t) && Descend(t, events, path).Some? && Descend(t, events, path).value.0.Leaf?
    ensures var (leaf, final) := Descend(t, events, path).value;
            Play(t, events, path, tape, draws)
              == Playback(Success(Finish(leaf.boundary, leaf.winner, leaf.turn, final)), path, |path|)
    decreases path
  {
    if path != [] {
      var i := Answer(t.point, path[0]).value;
      PlayFollowsPath(t.edges[i].next, events + t.edges[i].emitted, path[1..], tape, draws);
      assert path == [path[0]] + path[1..];
    }
  }

  /** Replaying a recorded trace reaches the same boundary and state, under any
      other tape, and under the search's provider as well. */
  lemma TraceReplays(t: Tree, events: seq<string>, script: seq<ScriptedChoice>,
                     tape: nat -> nat, draws: nat, tape': nat -> nat, draws': nat)
    requires Shaped(t) && RepeatsAgree(t) && Play(t, events, script, tape, draws).end.Success?
    ensures var r := Play(t, events, script, tape, draws);
            && Play(t, events, r.trace, tape', draws') == r.(consumed := |r.trace|)
            && Run(t, events, r.trace) ==
                 AtLeaf(r.end.value.boundary, r.end.value.winner, r.end.value.turn, r.end.value.events)
  {
    var r := Play(t, events, script, tape, draws);
    TraceLeadsToEnd(t, events, script, tape, draws);
    PlayFollowsPath(t, events, r.trace, tape', draws');
    RunResumes(t, events, r.trace, []);
    assert r.trace + [] == r.trace;
  }

  class ReplayThenRandomProvider {
    const prefix: seq<ScriptedChoice>
    const tape: nat -> nat
    var cursor: nat
    var draws: nat
    var choices: seq<ScriptedChoice>

    constructor (prefix: seq<ScriptedChoice>, tape: nat -> nat)
      ensures this.prefix == prefix && this.tape == tape && cursor == 0 && draws == 0 && choices == []
    {
      this.prefix := prefix;
      this.tape := tape;
      cursor := 0;
      draws := 0;
      choices := [];
    }

    ghost predicate Valid()
      reads this
    {
      cursor <= |prefix|
    }

    /** Answers a decision from the prefix, or at random once it is used up, and
        records the answer. `choose` and `choose_number` differ only in naming
        an offer by its position or by its value. */
    method Choose(point: Point) returns (selected: Result<nat, string>)
      requires Valid()
      requires point.request.NumberRange? && point.request.bounds.Some? ==>
                 point.request.bounds.value.0 <= point.request.bounds.value.1
      modifies this
      ensures Valid()
      ensures point.request == NumberRange(None) ==> selected == Failure(NOT_A_NUMBER) && unchanged(this)
      ensures point.request == Actions([]) ==> selected == Failure(NO_LEGAL_OPTIONS) && unchanged(this)
      ensures |Choices(point)| > 0 && old(cursor) < |prefix| ==>
                && selected == Answer(point, prefix[old(cursor)]) && cursor == old(cursor) + 1 && draws == old(draws)
                && choices == if selected.Success? then old(choices) + [prefix[old(cursor)]] else old(choices)
      ensures |Choices(point)| > 0 && old(cursor) == |prefix| ==>
                && selected == Success(tape(old(draws)) % |Choices(point)|)
                && cursor == old(cursor) && draws == old(draws) + 1
                && choices == old(choices) + [Choices(point)[selected.value]]
    {
      match point.request {
        case Actions(ids) =>
          if |ids| == 0 {
            return Failure(NO_LEGAL_OPTIONS);
          }
        case NumberRange(bounds) =>
          if bounds.None? {
            return Failure(NOT_A_NUMBER);
          }
      }
      if cursor < |prefix| {
        var choice := prefix[cursor];
        cursor := cursor + 1;
        selected := Answer(point, choice);
        if selected.Success? {
          choices := choices + [choice];
        }
      } else {
        var index := tape(draws) % |Choices(point)|;
        draws := draws + 1;
        choices := choices + [Choices(point)[index]];
        selected := Success(index);
      }
    }
  }

  /** What is left of a run, put behind what has already been recorded. */
  ghost predicate Resumes(all: Playback, recorded: seq<ScriptedChoice>, cursor: nat, rest: Playback)
  {
    all == Playback(rest.end, recorded + rest.trace, cursor + rest.consumed)
  }

  /** What remains of a run after one answered decision. */
  function Rest(t: Tree, events: seq<string>, script: seq<ScriptedChoice>, tape: nat -> nat, draws: nat,
                i: nat): Playback
    requires Shaped(t) && t.Decision? && i < |t.edges|
  {
    if script == [] then Play(t.edges[i].next, events + t.edges[i].emitted, [], tape, draws + 1)
    else Play(t.edges[i].next, events + t.edges[i].emitted, script[1..], tape, draws)
  }

  lemma PlayStep(t: Tree, events: seq<string>, script: seq<ScriptedChoice>, tape: nat -> nat, draws: nat, i: nat)
    requires Shaped(t) && t.Decision? && i < |t.edges|
    requires script != [] ==> Answer(t.point, script[0]) == Success(i)
    requires script == [] ==> i == tape(draws) % |t.edges|
    ensures var rest := Rest(t, events, script, tape, draws, i);
            Play(t, events, script, tape, draws)
              == Playback(rest.end, [if script == [] then Choices(t.point)[i] else script[0]] + rest.trace,
                          (if script == [] then 0 else 1) + rest.consumed)
  {
  }

  lemma ResumesAfter(all: Playback, recorded: seq<ScriptedChoice>, cursor: nat, t: Tree, events: seq<string>,
                     script: seq<ScriptedChoice>, tape: nat -> nat, draws: nat, i: nat)
    requires Shaped(t) && t.Decision? && i < |t.edges|
    requires script != [] ==> Answer(t.point, script[0]) == Success(i)
    requires script == [] ==> i == tape(draws) % |t.edges|
    requires Resumes(all, recorded, cursor, Play(t, events, script, tape, draws))
    ensures Resumes(all, recorded + [if script == [] then Choices(t.point)[i] else script[0]],
                    cursor + (if script == [] then 0 else 1), Rest(t, events, script, tape, draws, i))
  {
    PlayStep(t, events, script, tape, draws, i);
    var choice := if script == [] then Choices(t.point)[i] else script[0];
    var next := Rest(t, events, script, tape, draws, i);
    assert recorded + ([choice] + next.trace) == recorded + [choice] + next.trace;
  }

  method DriveThenRandom(root: Tree, opening: seq<string>, provider: ReplayThenRandomProvider)
    returns (r: Result<Finish, string>)
    requires Shaped(root) && provider.Valid()
    requires provider.cursor == 0 && provider.draws == 0 && provider.choices == []
    modifies provider
    ensures provider.Valid()
    ensures Playback(r, provider.choices, provider.cursor) == Play(root, opening, provider.prefix, provider.tape, 0)
  {
    var t, events := root, opening;
    ghost var all := Play(root, opening, provider.prefix, provider.tape, 0);
    assert provider.prefix[0..] == provider.prefix;
    while t.Decision?
      invariant Shaped(t) && provider.Valid()
      invariant Resumes(all, provider.choices, provider.cursor,
                        Play(t, events, provider.prefix[provider.cursor..], provider.tape, provider.draws))
      decreases t
    {
      ghost var script := provider.prefix[provider.cursor..];
      ghost var recorded, cursor, draws := provider.choices, provider.cursor, provider.draws;
      ghost var now := Play(t, events, script, provider.tape, draws);
      var selected := provider.Choose(t.point);
      if selected.Failure? {
        assert now == Playback(Failure(selected.error), [], provider.cursor - cursor);
        assert provider.choices + [] == provider.choices;
        return Failure(selected.error);
      }
      assert |Choices(t.point)| == |t.edges| && (script != [] ==> script[0] == provider.prefix[cursor]);
      ResumesAfter(all, recorded, cursor, t, events, script, provider.tape, draws, selected.value);
      assert provider.prefix[provider.cursor..] == if script == [] then [] else script[1..];
      t, events := t.edges[selected.value].next, events + t.edges[selected.value].emitted;
    }
    match t
    case Crash(message) => r := Failure(message);
    case Leaf(b, w, n) => r := Success(Finish(b, w, n, events));
  }

  datatype ReplayedSegment = ReplayedSegment(finish: Finish, allChoices: seq<ScriptedChoice>)

  /** A segment replay succeeds exactly when the run does and used its whole
      script; what it returns then starts with that script and replays. */
  method ReplaySegment(root: Tree, opening: seq<string>, script: seq<ScriptedChoice>, tape: nat -> nat)
    returns (r: Result<ReplayedSegment, string>)
    requires Shaped(root) && RepeatsAgree(root)
    ensures var p := Play(root, opening, script, tape, 0);
            r == (if p.end.Failure? then Failure(p.end.error)
                  else if p.consumed < |script| then Failure(SCRIPT_NOT_CONSUMED)
                  else Success(ReplayedSegment(p.end.value, p.trace)))
    ensures r.Success? ==>
              && script <= r.value.allChoices
              && Run(root, opening, r.value.allChoices)
                   == AtLeaf(r.value.finish.boundary, r.value.finish.winner, r.value.finish.turn, r.value.finish.events)
  {
    var provider := new ReplayThenRandomProvider(script, tape);
    var finish := DriveThenRandom(root, opening, provider);
    if finish.Failure? {
      return Failure(finish.error);
    }
    if provider.cursor < |script| {
      return Failure(SCRIPT_NOT_CONSUMED);
    }
    r := Success(ReplayedSegment(finish.value, provider.choices));
    TraceStartsWithScript(root, opening, script, tape, 0);
    TraceReplays(root, opening, script, tape, 0, tape, 0);
    assert script[..provider.cursor] == script;
  }
}
