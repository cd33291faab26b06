/** The two senders of observation deltas, and a receiver that folds them. */
module ObservationStream {
  import opened Wrappers
  import opened MergePatch

  datatype Update =
    | FullObservation(sequence: nat, observation: Json)
    | ObservationDelta(sequence: nat, previousSequence: nat, patch: Json)

  /** What a connection asked for. */
  datatype StreamKind = DeltaEventStream | FullSnapshotStream

  // ----------------------------------------------------------- live agents

  datatype Sender = Sender(sequence: nat, previous: Option<Json>)

  function Sent(s: Sender, kind: StreamKind, observation: Json): (Sender, Update)
  {
    var n := s.sequence + 1;
    (Sender(n, Some(observation)),
     if kind.DeltaEventStream? && s.previous.Some? then ObservationDelta(n, s.sequence,
         Diff(s.previous.value, observation))
     else FullObservation(n, observation))
  }

  class WebSocketAgent {
    var sequence: nat
    var previousObservation: Option<Json>

    constructor ()
      ensures State() == Sender(0, None)
    {
      sequence, previousObservation := 0, None;
    }

    ghost function State(): Sender
      reads this
    {
      Sender(sequence, previousObservation)
    }

    method ObservationUpdate(kind: StreamKind, observation: Json) returns (update: Update)
      modifies this
      ensures (State(), update) == Sent(old(State()), kind, observation)
      ensures sequence == old(sequence) + 1 == update.sequence && previousObservation == Some(observation)
      ensures update.ObservationDelta? <==> kind.DeltaEventStream? && old(previousObservation).Some?
    {
      sequence := sequence + 1;
      if kind.DeltaEventStream? && previousObservation.Some? {
        var patch := ComputeMergePatch(previousObservation.value, observation);
        update := ObservationDelta(sequence, sequence - 1, patch);
      } else {
        update := FullObservation(sequence, observation);
      }
      previousObservation := Some(observation);
    }
  }

  /** A client's copy and the sequence number it has reached. */
  datatype Receiver = Receiver(sequence: nat, view: Option<Json>)

  /** A delta is usable only on the very state it was computed from. */
  function Received(r: Receiver, u: Update): Option<Receiver>
  {
    match u
    case FullObservation(n, observation) => Some(Receiver(n, Some(observation)))
    case ObservationDelta(n, p, patch) =>
      if r.view.Some? && r.sequence == p then Some(Receiver(n, Some(Patched(r.view.value, patch)))) else None
  }

  datatype Input = Input(kind: StreamKind, observation: Json)

  /** A run: the sender and the receiver after a list of observations. */
  function RunStream(s: Sender, r: Receiver, inputs: seq<Input>): Option<(Sender, Receiver)>
    decreases inputs
  {
    if inputs == [] then Some((s, r))
    else
      var (s', update) := Sent(s, inputs[0].kind, inputs[0].observation);
      match Received(r, update)
      case None => None
      case Some(r') => RunStream(s', r', inputs[1..])
  }

  /** A copy equals the observation up to null members, or is {} where a non-object
      was repeated. */
  predicate Held(copy: Json, observation: Json)
  {
    Same(copy, observation) || (!observation.Object? && copy == EMPTY_OBJECT)
  }

  /** A delta carries every copy along, exactly but for a repeated non-object. */
  lemma DeltaIsHeld(copy: Json, previous: Json, current: Json)
    requires Held(copy, previous)
    ensures var after := Patched(copy, Diff(previous, current));
            Held(after, current) && (Same(after, current) <==> !(previous == current && !current.Object?))
  {
    if previous == current && !current.Object? {
      PatchedByNothing(copy);
      assert Patched(copy, Diff(previous, current)) == EMPTY_OBJECT;
    } else if Same(copy, previous) {
      DeltaKeepsSame(copy, previous, current);
    } else {
      PatchOnNothingSame(copy, current);
    }
  }

  /** The receiver is at the sender's number and holds its latest observation. */
  predicate Follows(s: Sender, r: Receiver)
  {
    && s.sequence == r.sequence && (s.previous.Some? <==> r.view.Some?)
    && (s.previous.Some? ==> Held(r.view.value, s.previous.value))
  }

  /** An observation a delta cannot carry: a non-object, sent again unchanged. */
  predicate Repeated(s: Sender, input: Input)
  {
    input.kind.DeltaEventStream? && s.previous == Some(input.observation) && !input.observation.Object?
  }

  /** One update is always accepted, and leaves the receiver with the new
      observation up to null members unless it repeated a non-object. */
  lemma UpdateIsFollowed(s: Sender, r: Receiver, input: Input)
    requires Follows(s, r)
    ensures var (s', update) := Sent(s, input.kind, input.observation);
            && Received(r, update).Some? && Follows(s', Received(r, update).value)
            && (Same(Received(r, update).value.view.value, input.observation) <==> !Repeated(s, input))
  {
    if input.kind.DeltaEventStream? && s.previous.Some? {
      DeltaIsHeld(r.view.value, s.previous.value, input.observation);
    }
  }

  /** Any run from the start is received in full, and every observation of it
      that was not a repeated non-object is then held up to null members. */
  lemma {:induction false} StreamIsFollowed(s: Sender, r: Receiver, inputs: seq<Input>)
    requires Follows(s, r)
    ensures RunStream(s, r, inputs).Some?
    ensures var (s', r') := RunStream(s, r, inputs).value;
            && Follows(s', r') && s'.sequence == s.sequence + |inputs|
            && (inputs != [] ==> s'.previous == Some(inputs[|inputs| - 1].observation))
            && (inputs != [] && inputs[|inputs| - 1].observation.Object? ==>
                  Same(r'.view.value, inputs[|inputs| - 1].observation))
    decreases inputs
  {
    if inputs != [] {
      UpdateIsFollowed(s, r, inputs[0]);
      var (s', update) := Sent(s, inputs[0].kind, inputs[0].observation);
      StreamIsFollowed(s', Received(r, update).value, inputs[1..]);
    }
  }

  function Updates(s: Sender, inputs: seq<Input>): seq<Update>
    decreases inputs
  {
    if inputs == [] then []
    else
      var (s', update) := Sent(s, inputs[0].kind, inputs[0].observation);
      [update] + Updates(s', inputs[1..])
  }

  /** Updates are numbered from 1 without a gap. On a delta stream every one but the
      first is the difference to the observation before it; any other is a whole
      observation. */
  lemma {:induction false} UpdatesAre(s: Sender, inputs: seq<Input>, i: nat)
    requires i < |inputs|
    ensures |Updates(s, inputs)| == |inputs|
    ensures var n, observation := s.sequence + i + 1, inputs[i].observation;
            var previous := if i > 0 then Some(inputs[i - 1].observation) else s.previous;
            Updates(s, inputs)[i] ==
              if inputs[i].kind == DeltaEventStream && previous.Some?
              then ObservationDelta(n, n - 1, Diff(previous.value, observation)) else FullObservation(n, observation)
    decreases inputs
  {
    var (s', update) := Sent(s, inputs[0].kind, inputs[0].observation);
    if i > 0 {
      UpdatesAre(s', inputs[1..], i - 1);
    } else if inputs[1..] != [] {
      UpdatesAre(s', inputs[1..], 0);
    }
  }

  /** A receiver that has missed an update of a run refuses every later delta of it. */
  lemma MissedUpdateIsNoticed(s: Sender, r: Receiver, inputs: seq<Input>, got: nat, i: nat)
    requires r.sequence == s.sequence + got && got < i < |inputs| && inputs[i].kind == DeltaEventStream
    ensures i < |Updates(s, inputs)| && Received(r, Updates(s, inputs)[i]) == None
  {
    UpdatesAre(s, inputs, i);
  }

  /** Game states are objects: after any run of them from the start the receiver
      holds the latest one up to null members; and where no observation has null
      members it holds it exactly. */
  lemma ObjectStreamIsExact(inputs: seq<Input>)
    requires inputs != [] && forall i | 0 <= i < |inputs| :: inputs[i].observation.Object?
    ensures var run := RunStream(Sender(0, None), Receiver(0, None), inputs);
            var latest := inputs[|inputs| - 1].observation;
            && run.Some? && run.value.1.view.Some? && Same(run.value.1.view.value, latest)
            && ((forall i | 0 <= i < |inputs| :: NullFree(inputs[i].observation)) ==> run.value.1.view.value == latest)
  {
    StreamIsFollowed(Sender(0, None), Receiver(0, None), inputs);
    if forall i | 0 <= i < |inputs| :: NullFree(inputs[i].observation) {
      NullFreeStreamIsExact(Sender(0, None), Receiver(0, None), inputs);
    }
  }

  lemma {:induction false} NullFreeStreamIsExact(s: Sender, r: Receiver, inputs: seq<Input>)
    requires s.sequence == r.sequence && s.previous == r.view && (s.previous.Some? ==> s.previous.value.Object?)
    requires forall i | 0 <= i < |inputs| :: inputs[i].observation.Object? && NullFree(inputs[i].observation)
    ensures RunStream(s, r, inputs).Some?
    ensures var (s', r') := RunStream(s, r, inputs).value; s'.previous == r'.view && s'.sequence == r'.sequence
    decreases inputs
  {
    if inputs != [] {
      if s.previous.Some? {
        RoundTrip(s.previous.value, inputs[0].observation);
      }
      var (s', update) := Sent(s, inputs[0].kind, inputs[0].observation);
      NullFreeStreamIsExact(s', Received(r, update).value, inputs[1..]);
    }
  }
}
