/** The uploader of the protocol gets on: from every outbox some run empties it,
    whichever events the sink will not have. */
module HistoryProgress {
  import opened Wrappers
  import opened HistorySpools
  import opened HistoryProtocol
  import opened Numbers

  ghost predicate HasBad(p: Protocol, bad: Event -> bool)
    requires p.uploader.Sending?
  {
    exists e | e in Events(p.uploader.batch) :: bad(e)
  }

  /** The sink takes a batch if no event of it is bad, and rejects it otherwise. */
  ghost predicate SinkAllows(p: Protocol, step: Step, bad: Event -> bool)
  {
    p.uploader.Sending? ==>
      && (step.DeliverAccepted? || step.DeliverAcceptedUnheard? ==> !HasBad(p, bad))
      && (step.DeliverRejected? ==> HasBad(p, bad))
  }

  ghost predicate FollowsSink(p: Protocol, steps: seq<Step>, bad: Event -> bool)
    decreases steps
  {
    steps != [] ==>
      && SinkAllows(p, steps[0], bad)
      && (Apply(p, steps[0]).Some? ==> FollowsSink(Apply(p, steps[0]).value, steps[1..], bad))
  }

  lemma StepFirst(p: Protocol, step: Step, next: Protocol, rest: seq<Step>, bad: Event -> bool)
    requires Apply(p, step) == Some(next) && SinkAllows(p, step, bad) && FollowsSink(next, rest, bad)
    ensures Run(p, [step] + rest) == Run(next, rest) && FollowsSink(p, [step] + rest, bad)
  {
    assert ([step] + rest)[1..] == rest;
  }

  /** Good events have been taken by the sink, bad ones are in quarantine. */
  ghost predicate Settled(p: Protocol, e: Event, bad: Event -> bool)
  {
    if bad(e) then Holds(p.spool.quarantined, e.Id()) else e in p.accepted
  }

  ghost predicate AllSettled(p: Protocol, rows: seq<Row>, bad: Event -> bool)
  {
    forall i | 0 <= i < |rows| :: Settled(p, rows[i].event, bad)
  }

  lemma SettledInTwo(p: Protocol, rows: seq<Row>, n: nat, bad: Event -> bool)
    requires n <= |rows| && AllSettled(p, rows[..n], bad) && AllSettled(p, rows[n..], bad)
    ensures AllSettled(p, rows, bad)
  {
    forall i | 0 <= i < |rows|
      ensures Settled(p, rows[i].event, bad)
    {
      if i < n {
        assert rows[..n][i] == rows[i];
      } else {
        assert rows[n..][i - n] == rows[i];
      }
    }
  }

  /** The events of a batch that was taken are settled for good. */
  lemma TakenAreSettled(p: Protocol, before: seq<Event>, batch: seq<Row>, bad: Event -> bool)
    requires (!exists e | e in Events(batch) :: bad(e)) && before + Events(batch) <= p.accepted
    ensures AllSettled(p, batch, bad)
  {
    forall i | 0 <= i < |batch|
      ensures Settled(p, batch[i].event, bad)
    {
      assert Events(batch)[i] == batch[i].event && (before + Events(batch))[|before| + i] == batch[i].event;
    }
  }

  lemma IsolatedIsSettled(p: Protocol, sp: Spool, bad: Event -> bool)
    requires Ledger(sp) && sp.outbox != [] && bad(sp.outbox[0].event)
    requires Quarantined(sp, sp.outbox[0]).quarantined <= p.spool.quarantined
    ensures AllSettled(p, sp.outbox[..1], bad)
  {
    QuarantineKeepsLedger(sp);
    var e, after := sp.outbox[0].event, Quarantined(sp, sp.outbox[0]).quarantined;
    assert Holds(after, e.Id()) by {
      if !Holds(sp.quarantined, e.Id()) {
        assert after[|sp.quarantined|] == e;
      }
    }
    HoldsMore(after, p.spool.quarantined, e.Id());
  }

  /** A run that follows the sink and empties the outbox: the good events are taken,
      the bad ones end in quarantine, nothing else changes hands, and the uploader
      waits with a full limit. */
  ghost predicate Drains(p: Protocol, steps: seq<Step>, bad: Event -> bool)
  {
    && Run(p, steps).Some? && FollowsSink(p, steps, bad)
    && var p' := Run(p, steps).value;
       && p'.spool.outbox == [] && p'.uploader.Looking? && p'.limit == 128 && p'.log == p.log
       && p.accepted <= p'.accepted && p.spool.quarantined <= p'.spool.quarantined
       && AllSettled(p', p.spool.outbox, bad)
  }

  /** The uploader has loaded its next batch. */
  function Loaded(p: Protocol): Protocol
  {
    p.(uploader := Sending(Batch(p.spool, p.limit)))
  }

  lemma LoadFirst(p: Protocol, rest: seq<Step>, bad: Event -> bool)
    requires p.uploader.Looking? && Batch(p.spool, p.limit) != [] && FollowsSink(Loaded(p), rest, bad)
    ensures Run(p, [Load] + rest) == Run(Loaded(p), rest) && FollowsSink(p, [Load] + rest, bad)
  {
    StepFirst(p, Load, Loaded(p), rest, bad);
  }

  function Taken(p: Protocol, batch: seq<Row>): Protocol
  {
    p.(spool := Acknowledged(p.spool, batch), accepted := p.accepted + Events(batch), limit := 128)
  }

  lemma TakenBatch(p: Protocol, batch: seq<Row>, rest: seq<Step>, bad: Event -> bool)
    requires p.uploader.Looking? && batch == Batch(p.spool, p.limit) != []
    requires (!exists e | e in Events(batch) :: bad(e)) && FollowsSink(Taken(p, batch), rest, bad)
    ensures var steps := [Load] + ([DeliverAccepted] + ([AcknowledgeCommits] + rest));
            Run(p, steps) == Run(Taken(p, batch), rest) && FollowsSink(p, steps, bad)
  {
    var acking := p.(uploader := Acking(batch), accepted := p.accepted + Events(batch));
    assert Apply(acking, AcknowledgeCommits) == Some(Taken(p, batch));
    StepFirst(acking, AcknowledgeCommits, Taken(p, batch), rest, bad);
    StepFirst(Loaded(p), DeliverAccepted, acking, [AcknowledgeCommits] + rest, bad);
    LoadFirst(p, [DeliverAccepted] + ([AcknowledgeCommits] + rest), bad);
  }

  lemma RejectedBatch(p: Protocol, next: Protocol, rest: seq<Step>, bad: Event -> bool)
    requires p.uploader.Looking? && Batch(p.spool, p.limit) != []
    requires exists e | e in Events(Batch(p.spool, p.limit)) :: bad(e)
    requires Apply(Loaded(p), DeliverRejected) == Some(next) && FollowsSink(next, rest, bad)
    ensures var steps := [Load] + ([DeliverRejected] + rest);
            Run(p, steps) == Run(next, rest) && FollowsSink(p, steps, bad)
  {
    StepFirst(Loaded(p), DeliverRejected, next, rest, bad);
    LoadFirst(p, [DeliverRejected] + rest, bad);
  }

  lemma DrainsAfterTaken(p: Protocol, batch: seq<Row>, rest: seq<Step>, bad: Event -> bool)
    requires Ledger(p.spool) && p.uploader.Looking? && batch == Batch(p.spool, p.limit) != []
    requires (!exists e | e in Events(batch) :: bad(e)) && Drains(Taken(p, batch), rest, bad)
    ensures Drains(p, [Load] + ([DeliverAccepted] + ([AcknowledgeCommits] + rest)), bad)
  {
    AcknowledgeKeepsLedger(p.spool, |batch|);
    TakenBatch(p, batch, rest, bad);
    var end := Run(Taken(p, batch), rest).value;
    TakenAreSettled(end, p.accepted, batch, bad);
    SettledInTwo(end, p.spool.outbox, |batch|, bad);
  }

  lemma DrainsAfterHalving(p: Protocol, batch: seq<Row>, rest: seq<Step>, bad: Event -> bool)
    requires p.uploader.Looking? && batch == Batch(p.spool, p.limit) && |batch| > 1
    requires (exists e | e in Events(batch) :: bad(e)) && Drains(p.(limit := |batch| / 2), rest, bad)
    ensures Drains(p, [Load] + ([DeliverRejected] + rest), bad)
  {
    assert Apply(Loaded(p), DeliverRejected) == Some(p.(limit := |batch| / 2));
    RejectedBatch(p, p.(limit := |batch| / 2), rest, bad);
  }

  lemma DrainsAfterQuarantine(p: Protocol, row: Row, rest: seq<Step>, bad: Event -> bool)
    requires Ledger(p.spool) && p.uploader.Looking? && Batch(p.spool, p.limit) == [row] && bad(row.event)
    requires Drains(p.(spool := Quarantined(p.spool, row), limit := 128), rest, bad)
    ensures Drains(p, [Load] + ([DeliverRejected] + ([QuarantineCommits] + rest)), bad)
  {
    assert row == p.spool.outbox[0];
    QuarantineKeepsLedger(p.spool);
    var isolated := p.(uploader := Isolated(row));
    var next := p.(spool := Quarantined(p.spool, row), limit := 128);
    assert Apply(isolated, QuarantineCommits) == Some(next);
    StepFirst(isolated, QuarantineCommits, next, rest, bad);
    assert Events([row])[0] == row.event;
    RejectedBatch(p, isolated, [QuarantineCommits] + rest, bad);
    var end := Run(next, rest).value;
    IsolatedIsSettled(end, p.spool, bad);
    SettledInTwo(end, p.spool.outbox, 1, bad);
  }

  /** From every outbox some run that follows the sink drains it. */
  lemma {:induction false} OutboxCanBeDrained(p: Protocol, bad: Event -> bool) returns (steps: seq<Step>)
    requires Ledger(p.spool) && p.uploader.Looking? && 1 <= p.limit
    ensures Drains(p, steps, bad)
    decreases |p.spool.outbox|, p.limit
  {
    if p.spool.outbox == [] {
      StepFirst(p, Wait, p.(limit := 128), [], bad);
      return [Wait] + [];
    }
    var batch := Batch(p.spool, p.limit);
    if !exists e | e in Events(batch) :: bad(e) {
      AcknowledgeKeepsLedger(p.spool, |batch|);
      var rest := OutboxCanBeDrained(Taken(p, batch), bad);
      DrainsAfterTaken(p, batch, rest, bad);
      steps := [Load] + ([DeliverAccepted] + ([AcknowledgeCommits] + rest));
    } else if |batch| > 1 {
      var rest := OutboxCanBeDrained(p.(limit := |batch| / 2), bad);
      DrainsAfterHalving(p, batch, rest, bad);
      steps := [Load] + ([DeliverRejected] + rest);
    } else {
      QuarantineKeepsLedger(p.spool);
      assert batch == [batch[0]] && Events(batch) == [batch[0].event];
      var rest := OutboxCanBeDrained(p.(spool := Quarantined(p.spool, batch[0]), limit := 128), bad);
      DrainsAfterQuarantine(p, batch[0], rest, bad);
      steps := [Load] + ([DeliverRejected] + ([QuarantineCommits] + rest));
    }
  }
}
