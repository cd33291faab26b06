/** The observations of players in the stored history: the first in full, the
    later ones as deltas, to be read back by folding. */
module StoredObservations {
  import opened Wrappers
  import opened MergePatch
  import opened ObservationStream

  datatype HistoryUpdate = Full(observation: Json) | Delta(patch: Json)

  function UpdateTo(previous: Option<Json>, observation: Json): HistoryUpdate
  {
    if previous.None? then Full(observation) else Delta(Diff(previous.value, observation))
  }

  function Applied(view: Option<Json>, update: HistoryUpdate): Option<Json>
  {
    match update
    case Full(observation) => Some(observation)
    case Delta(patch) => if view.None? then None else Some(Patched(view.value, patch))
  }

  /** Reading a log back; a delta that comes first has nothing to apply to. */
  function Folded(log: seq<HistoryUpdate>): Option<Json>
  {
    if log == [] then None
    else if |log| > 1 && Folded(log[..|log| - 1]).None? then None
    else Applied(Folded(log[..|log| - 1]), log[|log| - 1])
  }

  // ------------------------------------------------------- the program's one publisher

  /** One player's part of a stream's log. */
  function LogOf(log: seq<(string, HistoryUpdate)>, player: string): seq<HistoryUpdate>
  {
    if log == [] then []
    else if log[|log| - 1].0 == player then LogOf(log[..|log| - 1], player) + [log[|log| - 1].1]
    else LogOf(log[..|log| - 1], player)
  }

  /** A history stream in the hands of its one publisher, the engine's thread: an
      observation is published before the next one is computed. */
  class HistoryStream {
    var previousObservations: map<string, Json>
    ghost var log: seq<(string, HistoryUpdate)>

    /** Every player's log reads back as the player's latest observation. */
    ghost predicate Readable()
      reads this
    {
      forall player :: ReadsBack(previousObservations, log, player)
    }

    constructor ()
      ensures Readable() && previousObservations == map[] && log == []
    {
      previousObservations, log := map[], [];
    }

    method PublishPlayerObservation(player: string, observation: Json) returns (update: HistoryUpdate)
      requires Readable()
      modifies this
      ensures Readable() && previousObservations == old(previousObservations)[player := observation]
      ensures log == old(log) + [(player, update)]
      ensures Folded(LogOf(log, player)).Some? && (observation.Object? ==>
                                                   Same(Folded(LogOf(log, player)).value, observation))
    {
      ghost var before := previousObservations;
      if player in previousObservations {
        var patch := ComputeMergePatch(previousObservations[player], observation);
        update := Delta(patch);
      } else {
        update := Full(observation);
      }
      ghost var after, longer := before[player := observation], log + [(player, update)];
      forall other: string
        ensures ReadsBack(after, longer, other)
      {
        NextReadsBack(before, log, player, observation, other);
      }
      previousObservations := previousObservations[player := observation];
      log := log + [(player, update)];
      assert ReadsBack(previousObservations, log, player);
    }
  }

  ghost predicate ReadsBack(previous: map<string, Json>, log: seq<(string, HistoryUpdate)>, player: string)
  {
    if player in previous then
      Folded(LogOf(log, player)).Some? && Held(Folded(LogOf(log, player)).value, previous[player])
    else LogOf(log, player) == []
  }

  function Previous(previous: map<string, Json>, player: string): Option<Json>
  {
    if player in previous then Some(previous[player]) else None
  }

  lemma NextReadsBack(previous: map<string, Json>, log: seq<(string, HistoryUpdate)>, player: string, observation: Json,
                      other: string)
    requires ReadsBack(previous, log, player) && ReadsBack(previous, log, other)
    ensures var update := UpdateTo(Previous(previous, player), observation);
            ReadsBack(previous[player := observation], log + [(player, update)], other)
  {
    var update := UpdateTo(Previous(previous, player), observation);
    if other == player {
      if player in previous {
        DeltaIsHeld(Folded(LogOf(log, player)).value, previous[player], observation);
      }
    }
  }

  // -------------------------------------------------- any schedule of publishers

  // An update is computed under one lock and numbered under another, so several
  // publishers of one player's observations could come between each other.

  datatype Action = Compute | Publish(which: nat)

  datatype Recorder = Recorder(computed: nat, previous: Option<Json>, pending: seq<HistoryUpdate>,
                               log: seq<HistoryUpdate>)

  function Without<T>(s: seq<T>, i: nat): seq<T>
    requires i < |s|
  {
    s[..i] + s[i + 1..]
  }

  function Acted(r: Recorder, action: Action, observations: nat -> Json): Option<Recorder>
  {
    match action
    case Compute =>
      var o := observations(r.computed);
      Some(Recorder(r.computed + 1, Some(o), r.pending + [UpdateTo(r.previous, o)], r.log))
    case Publish(which) =>
      if which < |r.pending| then
        Some(Recorder(r.computed, r.previous, Without(r.pending, which), r.log + [r.pending[which]]))
      else None
  }

  /** A schedule run on given observations; None if it publishes what is not there. */
  function Recorded(actions: seq<Action>, observations: nat -> Json): Option<Recorder>
  {
    if actions == [] then Some(Recorder(0, None, [], []))
    else match Recorded(actions[..|actions| - 1], observations)
         case None => None
         case Some(r) => Acted(r, actions[|actions| - 1], observations)
  }

  /** The same run, with updates known by their numbers. */
  datatype Trace = Trace(computed: nat, pending: seq<nat>, order: seq<nat>)

  function Traced(actions: seq<Action>): Option<Trace>
  {
    if actions == [] then Some(Trace(0, [], []))
    else match Traced(actions[..|actions| - 1])
         case None => None
         case Some(t) => Noted(t, actions[|actions| - 1])
  }

  function Noted(t: Trace, action: Action): Option<Trace>
  {
    match action
    case Compute => Some(Trace(t.computed + 1, t.pending + [t.computed], t.order))
    case Publish(which) =>
      if which < |t.pending| then Some(Trace(t.computed, Without(t.pending, which), t.order + [t.pending[which]]))
          else None
  }

  function Update(observations: nat -> Json, i: nat): HistoryUpdate
  {
    UpdateTo(if i == 0 then None else Some(observations(i - 1)), observations(i))
  }

  function Updates(observations: nat -> Json, ids: seq<nat>): (r: seq<HistoryUpdate>)
    ensures |r| == |ids| && forall i | 0 <= i < |r| :: r[i] == Update(observations, ids[i])
  {
    seq(|ids|, i requires 0 <= i < |ids| => Update(observations, ids[i]))
  }

  ghost predicate TracedBy(r: Recorder, t: Trace, observations: nat -> Json)
  {
    && r.computed == t.computed && r.previous == (if t.computed == 0 then None else Some(observations(t.computed - 1)))
    && r.pending == Updates(observations, t.pending) && r.log == Updates(observations, t.order)
  }

  lemma ActedAsNoted(r: Recorder, t: Trace, action: Action, observations: nat -> Json)
    requires TracedBy(r, t, observations)
    ensures Acted(r, action, observations).Some? <==> Noted(t, action).Some?
    ensures Noted(t, action).Some? ==> TracedBy(Acted(r, action, observations).value, Noted(t, action).value,
                                                observations)
  {
  }

  lemma {:induction false} RecordedAsTraced(actions: seq<Action>, observations: nat -> Json)
    ensures Recorded(actions, observations).Some? <==> Traced(actions).Some?
    ensures Traced(actions).Some? ==> TracedBy(Recorded(actions, observations).value, Traced(actions).value,
                                               observations)
  {
    if actions != [] {
      var before := actions[..|actions| - 1];
      RecordedAsTraced(before, observations);
      if Traced(before).Some? {
        ActedAsNoted(Recorded(before, observations).value, Traced(before).value, actions[|actions| - 1], observations);
      }
    }
  }

  /** Every publish takes the oldest computed update. */
  predicate InOrder(actions: seq<Action>)
  {
    forall i | 0 <= i < |actions| :: actions[i].Publish? ==> actions[i].which == 0
  }

  function Upto(n: nat): (r: seq<nat>)
    ensures |r| == n && forall i | 0 <= i < n :: r[i] == i
  {
    seq(n, i => i)
  }

  lemma Regrouped(a: seq<nat>, b: seq<nat>, n: nat)
    ensures a + (b + [n]) == (a + b) + [n]
    ensures a + b == Upto(n) ==> a + (b + [n]) == Upto(n + 1)
  {
  }

  lemma OldestPublished(order: seq<nat>, pending: seq<nat>)
    requires pending != []
    ensures (order + [pending[0]]) + Without(pending, 0) == order + pending
  {
  }

  lemma {:induction false} InOrderPublishesInOrder(actions: seq<Action>)
    requires InOrder(actions) && Traced(actions).Some?
    ensures var t := Traced(actions).value; t.order + t.pending == Upto(t.computed)
  {
    if actions != [] {
      var before := actions[..|actions| - 1];
      InOrderPublishesInOrder(before);
      var t, u := Traced(before).value, Traced(actions).value;
      match actions[|actions| - 1] {
        case Compute => Regrouped(t.order, t.pending, t.computed);
        case Publish(which) => OldestPublished(t.order, t.pending);
      }
    }
  }

  ghost predicate AllObjects(observations: nat -> Json)
  {
    forall i: nat :: observations(i).Object?
  }

  lemma {:induction false} UpdatesFold(observations: nat -> Json, n: nat)
    requires AllObjects(observations) && n > 0
    ensures Folded(Updates(observations, Upto(n))).Some?
    ensures Same(Folded(Updates(observations, Upto(n))).value, observations(n - 1))
  {
    var log := Updates(observations, Upto(n - 1));
    assert Updates(observations, Upto(n)) == log + [Update(observations, n - 1)];
    if n > 1 {
      UpdatesFold(observations, n - 1);
      DeltaIsHeld(Folded(log).value, observations(n - 2), observations(n - 1));
    }
  }

  /** The stored log reads back as the latest observation. */
  ghost predicate LogFolds(actions: seq<Action>, observations: nat -> Json)
  {
    var r := Recorded(actions, observations);
    r.Some? && r.value.previous.Some? && Folded(r.value.log).Some?
        && Same(Folded(r.value.log).value, r.value.previous.value)
  }

  lemma InOrderLogFolds(actions: seq<Action>, observations: nat -> Json)
    requires Traced(actions).Some? && Traced(actions).value.pending == [] && Traced(actions).value.computed > 0
    requires InOrder(actions) && AllObjects(observations)
    ensures LogFolds(actions, observations)
  {
    InOrderPublishesInOrder(actions);
    RecordedAsTraced(actions, observations);
    var t := Traced(actions).value;
    assert t.order + [] == t.order;
    UpdatesFold(observations, t.computed);
  }

  // ------------------------------------------------------- what disorder breaks

  predicate Increasing(s: seq<nat>)
  {
    forall i, j | 0 <= i < j < |s| :: s[i] < s[j]
  }

  /** A later update has been published before an earlier one, stored or pending. */
  ghost predicate Inverted(t: Trace)
  {
    exists i: nat, x: nat :: Overtaken(t, i, x)
  }

  predicate Overtaken(t: Trace, i: nat, x: nat)
  {
    i < |t.order| && t.order[i] > x && (x in t.order[i + 1..] || x in t.pending)
  }

  function Times(t: Trace, x: nat): nat
  {
    multiset(t.order)[x] + multiset(t.pending)[x]
  }

  /** Every computed update is stored or pending, once. */
  ghost predicate TraceOk(t: Trace)
  {
    && Increasing(t.pending)
    && forall x: nat :: Times(t, x) == if x < t.computed then 1 else 0
  }

  lemma MultisetWithout(s: seq<nat>, i: nat)
    requires i < |s|
    ensures multiset(s) == multiset(Without(s, i)) + multiset{s[i]}
  {
    assert s == s[..i] + [s[i]] + s[i + 1..];
  }

  lemma MemberWithout(s: seq<nat>, i: nat, x: nat)
    requires i < |s| && x in s
    ensures x in Without(s, i) || x == s[i]
  {
    MultisetWithout(s, i);
    assert x in multiset(s);
  }

  lemma PublishKeepsTrace(t: Trace, which: nat)
    requires TraceOk(t) && which < |t.pending|
    ensures TraceOk(Noted(t, Publish(which)).value)
  {
    var u := Noted(t, Publish(which)).value;
    MultisetWithout(t.pending, which);
    assert multiset(u.order) == multiset(t.order) + multiset{t.pending[which]};
    forall x: nat
      ensures Times(u, x) == Times(t, x)
    {
    }
  }

  lemma PublishInverts(t: Trace, which: nat)
    requires TraceOk(t) && which < |t.pending| && (Inverted(t) || which > 0)
    ensures Inverted(Noted(t, Publish(which)).value)
  {
    var u, n := Noted(t, Publish(which)).value, |t.order|;
    if Inverted(t) {
      var i: nat, x: nat :| Overtaken(t, i, x);
      if x in t.pending {
        MemberWithout(t.pending, which, x);
      }
      assert u.order[i + 1..] == t.order[i + 1..] + [t.pending[which]];
      assert Overtaken(u, i, x);
    } else {
      assert u.pending[0] == t.pending[0] && u.order[n] == t.pending[which];
      assert Overtaken(u, n, t.pending[0]);
    }
  }

  lemma ComputeKeepsTrace(t: Trace)
    requires TraceOk(t)
    ensures TraceOk(Noted(t, Compute).value) && (Inverted(t) ==> Inverted(Noted(t, Compute).value))
  {
    var u := Noted(t, Compute).value;
    forall i | 0 <= i < |t.pending|
      ensures t.pending[i] < t.computed
    {
      assert t.pending[i] in multiset(t.pending);
      assert Times(t, t.pending[i]) > 0;
    }
    assert multiset(u.pending) == multiset(t.pending) + multiset{t.computed};
    forall x: nat
      ensures Times(u, x) == if x < u.computed then 1 else 0
    {
      assert Times(t, x) == if x < t.computed then 1 else 0;
    }
    if Inverted(t) {
      var i: nat, x: nat :| Overtaken(t, i, x);
      assert Overtaken(u, i, x);
    }
  }

  lemma {:induction false} DisorderInverts(actions: seq<Action>)
    requires Traced(actions).Some?
    ensures TraceOk(Traced(actions).value) && (!InOrder(actions) ==> Inverted(Traced(actions).value))
  {
    if actions != [] {
      var before, last := actions[..|actions| - 1], actions[|actions| - 1];
      DisorderInverts(before);
      match last {
        case Compute => ComputeKeepsTrace(Traced(before).value);
        case Publish(which) =>
          PublishKeepsTrace(Traced(before).value, which);
          if !InOrder(actions) {
            PublishInverts(Traced(before).value, which);
          }
      }
    }
  }

  // Observations from number a up to number b hold a key that all others lack.

  const EMPTY: Json := Object(map[])
  const MARKED: Json := Object(map["a" := Number(1)])
  const UNMARK: Json := Object(map["a" := Null])

  function Marked(a: nat, b: nat): nat -> Json
  {
    (i: nat) => if a <= i < b then MARKED else EMPTY
  }

  lemma MarkedDeltas()
    ensures Diff(EMPTY, EMPTY) == Diff(MARKED, MARKED) == EMPTY && Diff(EMPTY, MARKED) == MARKED
            && Diff(MARKED, EMPTY) == UNMARK
    ensures Patched(EMPTY, EMPTY) == EMPTY && Patched(MARKED, EMPTY) == MARKED
    ensures Patched(EMPTY, MARKED) == MARKED && Patched(EMPTY, UNMARK) == EMPTY
    ensures !Same(MARKED, EMPTY)
  {
    assert Diff(EMPTY, MARKED).members == MARKED.members;
    assert Diff(MARKED, EMPTY).members == UNMARK.members;
    assert Patched(EMPTY, EMPTY).members == map[];
    assert Patched(MARKED, EMPTY).members == MARKED.members;
    assert Patched(EMPTY, MARKED).members == MARKED.members;
    assert Patched(EMPTY, UNMARK).members == map[];
    assert "a" in Strip(MARKED).members && "a" !in Strip(EMPTY).members;
  }

  predicate Unique(s: seq<nat>)
  {
    forall i, j | 0 <= i < j < |s| :: s[i] != s[j]
  }

  lemma {:induction false} OnceIsUnique(s: seq<nat>)
    requires forall x: nat :: multiset(s)[x] <= 1
    ensures Unique(s)
  {
    if s != [] {
      var n := |s| - 1;
      assert s == s[..n] + [s[n]];
      assert multiset(s) == multiset(s[..n]) + multiset{s[n]};
      forall x: nat
        ensures multiset(s[..n])[x] <= 1
      {
        assert multiset(s)[x] <= 1;
      }
      OnceIsUnique(s[..n]);
      assert multiset(s)[s[n]] <= 1;
      forall i | 0 <= i < n
        ensures s[i] != s[n]
      {
        assert s[..n][i] in multiset(s[..n]);
      }
    }
  }

  /** Removing a key before adding it leaves it there. */
  lemma {:induction false} DisorderedFold(order: seq<nat>, i: nat, j: nat, k: nat)
    requires i < j < |order| && 0 < k <= |order| && Unique(order) && order[0] == 0 && 0 < order[j] < order[i]
    ensures Folded(Updates(Marked(order[j], order[i]), order[..k])) == Some(if k <= j then EMPTY else MARKED)
  {
    var observations := Marked(order[j], order[i]);
    var log := Updates(observations, order[..k - 1]);
    assert Updates(observations, order[..k]) == log + [Update(observations, order[k - 1])];
    if k > 1 {
      DisorderedFold(order, i, j, k - 1);
      MarkedDeltas();
      assert order[k - 1] != 0;
    }
  }

  lemma DeltaFirst(log: seq<HistoryUpdate>)
    requires log != [] && log[0].Delta?
    ensures Folded(log) == None
  {
    if |log| > 1 {
      DeltaFirst(log[..|log| - 1]);
    }
  }

  lemma FirstOvertaken(t: Trace) returns (i: nat, j: nat)
    requires Inverted(t) && t.pending == []
    ensures i < j < |t.order| && t.order[i] > t.order[j]
  {
    var x: nat;
    i, x :| Overtaken(t, i, x);
    var d :| 0 <= d < |t.order[i + 1..]| && t.order[i + 1..][d] == x;
    j := i + 1 + d;
  }

  /** Observations whose log, published in this order, does not read back. */
  lemma DisorderedLog(order: seq<nat>, i: nat, j: nat)
    requires Unique(order) && i < j < |order| && order[i] > order[j]
    ensures var folded := Folded(Updates(Marked(order[j], order[i]), order)); folded == None || folded == Some(MARKED)
  {
    if order[0] != 0 {
      DeltaFirst(Updates(Marked(order[j], order[i]), order));
    } else {
      DisorderedFold(order, i, j, |order|);
      assert order[..|order|] == order;
    }
  }

  lemma DisorderBreaks(actions: seq<Action>) returns (observations: nat -> Json)
    requires Traced(actions).Some? && Traced(actions).value.pending == [] && !InOrder(actions)
    ensures AllObjects(observations) && !LogFolds(actions, observations)
  {
    DisorderInverts(actions);
    var t := Traced(actions).value;
    var i, j := FirstOvertaken(t);
    forall x: nat
      ensures multiset(t.order)[x] <= 1
    {
      assert Times(t, x) <= 1;
    }
    OnceIsUnique(t.order);
    DisorderedLog(t.order, i, j);
    observations := Marked(t.order[j], t.order[i]);
    RecordedAsTraced(actions, observations);
    assert t.order[i] in multiset(t.order) && Times(t, t.order[i]) > 0;
    assert observations(t.computed - 1) == EMPTY;
    MarkedDeltas();
  }

  /** When nothing is left pending, the log reads back as the latest observation
      for all object observations if and only if every publish took the oldest
      pending update. */
  lemma LogFoldsIffInOrder(actions: seq<Action>)
    requires Traced(actions).Some? && Traced(actions).value.pending == [] && Traced(actions).value.computed > 0
    ensures (forall observations: nat -> Json | AllObjects(observations) :: LogFolds(actions, observations)) <==>
            InOrder(actions)
  {
    if InOrder(actions) {
      forall observations: nat -> Json | AllObjects(observations)
        ensures LogFolds(actions, observations)
      {
        InOrderLogFolds(actions, observations);
      }
    } else {
      var observations := DisorderBreaks(actions);
    }
  }

  /** The schedule of a single publisher. */
  function Alternating(n: nat): seq<Action>
  {
    if n == 0 then [] else Alternating(n - 1) + [Compute] + [Publish(0)]
  }

  lemma {:induction false} AlternatingIsInOrder(n: nat)
    ensures InOrder(Alternating(n))
  {
    if n > 0 {
      AlternatingIsInOrder(n - 1);
    }
  }

  /** Computing the next update and publishing it at once. */
  lemma PublishedAtOnce(actions: seq<Action>, n: nat)
    requires Traced(actions) == Some(Trace(n, [], Upto(n)))
    ensures Traced(actions + [Compute] + [Publish(0)]) == Some(Trace(n + 1, [], Upto(n + 1)))
  {
    assert [] + [n] == [n];
    assert Without([n], 0) == [] && Upto(n) + [n] == Upto(n + 1);
  }

  lemma {:induction false} AlternatingTrace(n: nat)
    ensures Traced(Alternating(n)) == Some(Trace(n, [], Upto(n)))
  {
    if n > 0 {
      AlternatingTrace(n - 1);
      PublishedAtOnce(Alternating(n - 1), n - 1);
    }
  }

  /** A single publisher's log reads back after every observation. */
  lemma OnePublisherIsReadBack(n: nat, observations: nat -> Json)
    requires n > 0 && AllObjects(observations)
    ensures LogFolds(Alternating(n), observations)
  {
    AlternatingIsInOrder(n);
    AlternatingTrace(n);
    InOrderLogFolds(Alternating(n), observations);
  }
}
