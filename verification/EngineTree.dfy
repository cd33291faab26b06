/** The rules engine as the search sees it: a finite, deterministic tree of
    decisions. Random draws inside the engine are part of the tree, because a
    run is fixed by its seed and by the answers of the decision provider. */
module EngineTree {
  import opened Wrappers

  /** How `run_until_next_untap` stopped. */
  datatype Boundary = Reached | GameEnded | TurnLimitReached

  /** What a decision request offers: named actions, or a number in a range. */
  datatype Request =
    | Actions(ids: seq<string>)
    | NumberRange(bounds: Option<(int, int)>)

  datatype ScriptedChoice =
    | Action(decisionId: string, actionId: string)
    | Number(decisionId: string, value: int)

  /** A decision point. `stateText` is the serialized game state without its
      event list; `rng` is the fingerprint of the random generator. */
  datatype Point = Point(stateText: string, decisionId: string, playerId: string, rng: int, request: Request)

  /** Taking an edge appends `emitted` to the game's event kinds. */
  datatype Edge = Edge(emitted: seq<string>, next: Tree)

  datatype Tree =
    | Leaf(boundary: Boundary, winner: Option<string>, turn: nat)
    | Decision(point: Point, edges: seq<Edge>)
    | Crash(message: string)

  /** What one run from the root ends in. */
  datatype Replay =
    | AtLeaf(boundary: Boundary, winner: Option<string>, turn: nat, events: seq<string>)
    | AtDecision(point: Point, edges: seq<Edge>, events: seq<string>)
    | Failed(message: string)

  /** The choices a decision offers, in order (an unusable number range has none). */
  function Choices(p: Point): (cs: seq<ScriptedChoice>)
  {
    match p.request
    case Actions(ids) => seq(|ids|, i requires 0 <= i < |ids| => Action(p.decisionId, ids[i]))
    case NumberRange(None) => []
    case NumberRange(Some(b)) =>
      if b.0 <= b.1 then seq(b.1 - b.0 + 1, i requires 0 <= i <= b.1 - b.0 => Number(p.decisionId, b.0 + i)) else []
  }

  /** An action decision offers its ids in order, a number decision every number of
      its range, from the lowest. */
  lemma ChoicesAre(p: Point, c: ScriptedChoice, i: nat)
    ensures p.request.Actions? ==>
              && (c in Choices(p) <==> c.Action? && c.decisionId == p.decisionId && c.actionId in p.request.ids)
              && (i < |p.request.ids| ==> i < |Choices(p)| && Choices(p)[i] == Action(p.decisionId, p.request.ids[i]))
    ensures p.request.NumberRange? && p.request.bounds.Some? ==>
              var (low, high) := p.request.bounds.value;
              && (c in Choices(p) <==> c.Number? && c.decisionId == p.decisionId && low <= c.value <= high)
              && (i < |Choices(p)| ==> Choices(p)[i] == Number(p.decisionId, low + i))
    ensures p.request == NumberRange(None) ==> Choices(p) == []
  {
    var cs := Choices(p);
    match (p.request, c) {
      case (Actions(ids), Action(decisionId, actionId)) =>
        if decisionId == p.decisionId && actionId in ids {
          var k :| 0 <= k < |ids| && ids[k] == actionId;
          assert cs[k] == c;
        }
      case (NumberRange(Some(b)), Number(decisionId, value)) =>
        if decisionId == p.decisionId && b.0 <= value <= b.1 {
          assert cs[value - b.0] == c;
        }
      case _ =>
    }
  }

  function FirstIndex(ids: seq<string>, id: string): (r: Option<nat>)
    ensures r.Some? ==> r.value < |ids| && ids[r.value] == id && forall k | 0 <= k < r.value :: ids[k] != id
    ensures r.None? ==> forall k | 0 <= k < |ids| :: ids[k] != id
  {
    if ids == [] then None
    else if ids[0] == id then Some(0)
    else match FirstIndex(ids[1..], id)
         case None => None
         case Some(i) => Some(i + 1)
  }

  /** Which edge a scripted choice takes, or the provider's error. */
  function Answer(p: Point, choice: ScriptedChoice): (r: Result<nat, string>)
  {
    match (p.request, choice)
    case (Actions(ids), Action(decisionId, actionId)) =>
      if decisionId != p.decisionId then Failure("replay decision mismatch")
      else (match FirstIndex(ids, actionId)
            case Some(i) => Success(i)
            case None => Failure("replay action is absent"))
    case (Actions(_), Number(_, _)) => Failure("replay expected a number but reached an action decision")
    case (NumberRange(_), Action(_, _)) => Failure("replay expected an action but reached a number decision")
    case (NumberRange(bounds), Number(decisionId, value)) =>
      if decisionId != p.decisionId then Failure("replay decision mismatch")
      else if bounds.None? then Failure("decision is not a number selection")
      else if !(bounds.value.0 <= value <= bounds.value.1) then Failure("replay number is outside the range")
      else Result<nat, string>.Success(value - bounds.value.0)
  }

  /** `decision_number_bounds` never yields an empty range, and a decision has
      one continuation for each choice it offers. */
  predicate Shaped(t: Tree)
  {
    match t
    case Leaf(_, _, _) => true
    case Crash(_) => true
    case Decision(p, edges) =>
      && (p.request.NumberRange? && p.request.bounds.Some? ==> p.request.bounds.value.0 <= p.request.bounds.value.1)
      && |edges| == |Choices(p)|
      && forall i | 0 <= i < |edges| :: Shaped(edges[i].next)
  }

  /** Wherever a decision offers one action id twice, both offers lead to the
      same continuation. Requests with distinct ids satisfy this outright. */
  predicate RepeatsAgree(t: Tree)
    requires Shaped(t)
  {
    match t
    case Leaf(_, _, _) => true
    case Crash(_) => true
    case Decision(p, edges) =>
      && RepeatsAgreeAt(p, edges)
      && forall i | 0 <= i < |edges| :: RepeatsAgree(edges[i].next)
  }

  predicate RepeatsAgreeAt(p: Point, edges: seq<Edge>)
    requires |edges| == |Choices(p)|
  {
    p.request.Actions? ==>
      forall i, j | 0 <= i < j < |edges| && p.request.ids[i] == p.request.ids[j] :: edges[i] == edges[j]
  }

  /** No run of the engine fails on its own. */
  predicate ErrorFree(t: Tree)
  {
    match t
    case Leaf(_, _, _) => true
    case Crash(_) => false
    case Decision(p, edges) =>
      && p.request != NumberRange(None)
      && forall i | 0 <= i < |edges| :: ErrorFree(edges[i].next)
  }

  /** The subtree and the events so far after following a script, when the
      script can be followed to its last choice. */
  function Descend(t: Tree, events: seq<string>, script: seq<ScriptedChoice>): (r: Option<(Tree, seq<string>)>)
    requires Shaped(t)
    ensures r.Some? ==> Shaped(r.value.0)
    decreases script
  {
    if script == [] then Some((t, events))
    else if !t.Decision? then None
    else match Answer(t.point, script[0])
         case Failure(_) => None
         case Success(i) => Descend(t.edges[i].next, events + t.edges[i].emitted, script[1..])
  }

  /** One run under the search's provider: answer from the script while it
      lasts, then stop at the first open decision. Left-over script is ignored. */
  function Run(t: Tree, events: seq<string>, script: seq<ScriptedChoice>): (r: Replay)
    requires Shaped(t)
    ensures r.AtDecision? ==> Shaped(Decision(r.point, r.edges)) && r.point.request != NumberRange(None)
    decreases t
  {
    match t
    case Leaf(boundary, winner, turn) => AtLeaf(boundary, winner, turn, events)
    case Crash(message) => Failed(message)
    case Decision(p, edges) =>
      if script == [] then
        if p.request == NumberRange(None) then Failed("decision is not a number selection")
        else AtDecision(p, edges, events)
      else match Answer(p, script[0])
           case Failure(e) => Failed(e)
           case Success(i) => Run(edges[i].next, events + edges[i].emitted, script[1..])
  }

  /** Replay is stateless descent: running a ++ b from the root is running b
      from the node a leads to. */
  lemma {:induction false} RunResumes(t: Tree, events: seq<string>, a: seq<ScriptedChoice>, b: seq<ScriptedChoice>)
    requires Shaped(t) && Descend(t, events, a).Some?
    ensures var (t', events') := Descend(t, events, a).value; Run(t, events, a + b) == Run(t', events', b)
    decreases a
  {
    if a == [] {
      assert a + b == b;
    } else {
      var i := Answer(t.point, a[0]).value;
      assert (a + b)[1..] == a[1..] + b;
      RunResumes(t.edges[i].next, events + t.edges[i].emitted, a[1..], b);
    }
  }

  lemma {:induction false} DescendAppend(t: Tree, events: seq<string>, a: seq<ScriptedChoice>, b: seq<ScriptedChoice>)
    requires Shaped(t) && Descend(t, events, a).Some?
    ensures Descend(t, events, a + b) == Descend(Descend(t, events, a).value.0, Descend(t, events, a).value.1, b)
    decreases a
  {
    if a == [] {
      assert a + b == b;
    } else {
      var i := Answer(t.point, a[0]).value;
      assert (a + b)[1..] == a[1..] + b;
      DescendAppend(t.edges[i].next, events + t.edges[i].emitted, a[1..], b);
    }
  }

  lemma {:induction false} DescendKeeps(t: Tree, events: seq<string>, a: seq<ScriptedChoice>)
    requires Shaped(t) && Descend(t, events, a).Some?
    ensures RepeatsAgree(t) ==> RepeatsAgree(Descend(t, events, a).value.0)
    ensures ErrorFree(t) ==> ErrorFree(Descend(t, events, a).value.0)
    ensures events <= Descend(t, events, a).value.1
    decreases a
  {
    if a != [] {
      var i := Answer(t.point, a[0]).value;
      DescendKeeps(t.edges[i].next, events + t.edges[i].emitted, a[1..]);
    }
  }

  /** Exactly the offered choices are accepted, each as its first offer. */
  lemma AnsweredIffOffered(p: Point, c: ScriptedChoice)
    ensures Answer(p, c).Success? <==> c in Choices(p)
    ensures Answer(p, c).Success? ==>
              var i := Answer(p, c).value;
              i < |Choices(p)| && Choices(p)[i] == c && forall j | 0 <= j < i :: Choices(p)[j] != c
  {
    ChoicesAre(p, c, 0);
    if c in Choices(p) {
      var i :| 0 <= i < |Choices(p)| && Choices(p)[i] == c;
      OfferedChoiceAnswers(p, i);
    }
  }

  /** An offered choice is always accepted, by the first offer with its label. */
  lemma OfferedChoiceAnswers(p: Point, i: nat)
    requires p.request.NumberRange? && p.request.bounds.Some? ==> p.request.bounds.value.0 <= p.request.bounds.value.1
    requires i < |Choices(p)|
    ensures Answer(p, Choices(p)[i]).Success?
    ensures var j := Answer(p, Choices(p)[i]).value; j <= i && Choices(p)[j] == Choices(p)[i]
  {
  }

  /** Every offered choice replays to its own continuation exactly when
      repeated action ids agree. */
  lemma ChoicesLandIffRepeatsAgree(t: Tree, events: seq<string>)
    requires t.Decision? && Shaped(t)
    ensures RepeatsAgreeAt(t.point, t.edges) <==>
            forall i | 0 <= i < |t.edges| ::
              Descend(t, events, [Choices(t.point)[i]]) == Some((t.edges[i].next, events + t.edges[i].emitted))
  {
    forall i | 0 <= i < |t.edges|
      ensures var j := Answer(t.point, Choices(t.point)[i]);
              && j.Success? && j.value <= i && Choices(t.point)[j.value] == Choices(t.point)[i]
              && Descend(t, events, [Choices(t.point)[i]]) == Some((t.edges[j.value].next,
                                                                    events + t.edges[j.value].emitted))
    {
      OfferedChoiceAnswers(t.point, i);
    }
    if forall i | 0 <= i < |t.edges| ::
         Descend(t, events, [Choices(t.point)[i]]) == Some((t.edges[i].next, events + t.edges[i].emitted)) {
      forall i, j | t.point.request.Actions? && 0 <= i < j < |t.edges|
          && t.point.request.ids[i] == t.point.request.ids[j]
        ensures t.edges[i] == t.edges[j]
      {
        assert Choices(t.point)[i] == Choices(t.point)[j];
        assert (events + t.edges[i].emitted)[|events|..] == t.edges[i].emitted;
        assert (events + t.edges[j].emitted)[|events|..] == t.edges[j].emitted;
      }
    }
  }

  /** Extending a branch that reaches a decision by any offered choice never
      errors, and the next run starts at that choice's child. */
  lemma ExtensionLandsOnChild(root: Tree, opening: seq<string>, script: seq<ScriptedChoice>, i: nat)
    requires Shaped(root) && RepeatsAgree(root)
    requires Descend(root, opening, script).Some? && Run(root, opening, script).AtDecision?
    requires i < |Run(root, opening, script).edges|
    ensures var at := Run(root, opening, script);
            Descend(root, opening, script + [Choices(at.point)[i]])
              == Some((at.edges[i].next, at.events + at.edges[i].emitted))
  {
    RunResumes(root, opening, script, []);
    assert script + [] == script;
    var (t, events) := Descend(root, opening, script).value;
    DescendKeeps(root, opening, script);
    ChoicesLandIffRepeatsAgree(t, events);
    DescendAppend(root, opening, script, [Choices(t.point)[i]]);
  }
}
