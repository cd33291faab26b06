/** The spool as a mutable database, and the uploader that empties it. */
module HistoryUpload {
  import opened Wrappers
  import opened HistorySpools
  import opened Numbers
  import opened Sequences

  class HistorySpool {
    const maxBytes: nat
    var nextId: nat
    var outbox: seq<Row>
    var quarantined: seq<Event>
    var pendingBytes: int
    var quarantinedBytes: int

    /** `prepare`: opens a database and recomputes both counters from its tables. */
    constructor (maxBytes: nat, stored: Spool)
      ensures this.maxBytes == maxBytes && State() == Reopened(stored, maxBytes)
    {
      this.maxBytes := maxBytes;
      nextId, outbox, quarantined := stored.nextId, stored.outbox, stored.quarantined;
      pendingBytes, quarantinedBytes := Bytes(Events(stored.outbox)), Bytes(stored.quarantined);
    }

    ghost function State(): Spool
      reads this
    {
      Spool(maxBytes, nextId, outbox, quarantined, pendingBytes, quarantinedBytes)
    }

    /** A transaction: its rows are this object's only once it commits. */
    method Persist(events: seq<Event>) returns (r: Result<(), string>)
      modifies this
      ensures match Persisted(old(State()), events)
              case Failure(e) => r == Failure(e) && State() == old(State())
              case Success(sp) => r == Success(()) && State() == sp
    {
      var storedBytes := Max(0, pendingBytes + quarantinedBytes);
      var rows, next, addedBytes := outbox, nextId, 0;
      ghost var sp := State();
      for i := 0 to |events|
        invariant InsertAll(sp, events) == InsertAll(sp.(outbox := rows, nextId := next), events[i..])
        invariant Bytes(NewOnes(Events(outbox), events)) == addedBytes + Bytes(NewOnes(Events(rows), events[i..]))
      {
        assert events[i..][0] == events[i] && events[i..][1..] == events[i + 1..];
        if !Holds(Events(rows), events[i].Id()) {
          assert Events(rows + [Row(next, events[i])]) == Events(rows) + [events[i]];
          rows, next := rows + [Row(next, events[i])], next + 1;
          addedBytes := addedBytes + events[i].encodedBytes;
        }
      }
      if storedBytes + addedBytes > maxBytes {
        return Failure("history spool quota reached");
      }
      outbox, nextId, pendingBytes := rows, next, pendingBytes + addedBytes;
      r := Success(());
    }

    method LoadBatch(maxEvents: nat) returns (batch: seq<Row>)
      ensures batch == Batch(State(), maxEvents) && |batch| <= maxEvents && batch <= outbox
      ensures |batch| <= 1 || Bytes(Events(batch)) <= MAX_BATCH_BYTES
      ensures |batch| < maxEvents && |batch| < |outbox| ==>
                batch != [] && Bytes(Events(outbox[..|batch| + 1])) > MAX_BATCH_BYTES
    {
      batch := CollectRows(outbox, maxEvents);
    }

    static method CollectRows(rows: seq<Row>, maxEvents: nat) returns (batch: seq<Row>)
      ensures batch == rows[..MoreRows(rows, maxEvents, 0, 0)]
    {
      batch := [];
      var bytes: nat := 0;
      var i: nat := 0;
      while i < |rows| && i < maxEvents
        invariant i <= |rows| && i <= maxEvents && batch == rows[..i]
        invariant MoreRows(rows, maxEvents, 0, 0) == i + MoreRows(rows[i..], maxEvents - i, i, bytes)
      {
        if batch != [] && bytes + rows[i].event.encodedBytes > MAX_BATCH_BYTES {
          break;
        }
        bytes := bytes + rows[i].event.encodedBytes;
        batch := batch + [rows[i]];
        i := i + 1;
      }
    }

    method Acknowledge(batch: seq<Row>)
      modifies this
      ensures State() == Acknowledged(old(State()), batch)
    {
      var rows, removedBytes := outbox, 0;
      for i := 0 to |batch|
        invariant WithoutRows(outbox, batch) == WithoutRows(rows, batch[i..])
        invariant FoundBytes(outbox, batch) == removedBytes + FoundBytes(rows, batch[i..])
      {
        assert batch[i..][0] == batch[i] && batch[i..][1..] == batch[i + 1..];
        if HasRow(rows, batch[i].id) {
          removedBytes := removedBytes + batch[i].event.encodedBytes;
        }
        rows := WithoutRow(rows, batch[i].id);
      }
      outbox, pendingBytes := rows, Max(0, pendingBytes - removedBytes);
    }

    method Quarantine(row: Row)
      modifies this
      ensures State() == Quarantined(old(State()), row)
    {
      var stored := RowEvent(outbox, row.id);
      if stored.Some? {
        if !Holds(quarantined, stored.value.Id()) {
          quarantined := quarantined + [stored.value];
          quarantinedBytes := quarantinedBytes + row.event.encodedBytes;
        }
        pendingBytes := Max(0, pendingBytes - row.event.encodedBytes);
      } else {
        pendingBytes := Max(0, pendingBytes);
      }
      outbox := WithoutRow(outbox, row.id);
    }
  }

  // ------------------------------------------------------------ the uploader

  datatype Delivery = Accepted | PayloadRejected

  function Keep(events: seq<Event>, p: Event -> bool): seq<Event>
  {
    if events == [] then []
    else if p(events[0]) then [events[0]] + Keep(events[1..], p)
    else Keep(events[1..], p)
  }

  function Good(bad: Event -> bool): Event -> bool
  {
    e => !bad(e)
  }

  predicate AnyBad(events: seq<Event>, bad: Event -> bool)
  {
    exists i | 0 <= i < |events| :: bad(events[i])
  }

  /** A receiver that refuses a batch exactly when it contains a bad event. */
  class Sink {
    const bad: Event -> bool
    var accepted: seq<Event>

    constructor (bad: Event -> bool)
      ensures this.bad == bad && accepted == []
    {
      this.bad := bad;
      accepted := [];
    }

    method Deliver(events: seq<Event>) returns (r: Delivery)
      modifies this
      ensures r == if AnyBad(events, bad) then PayloadRejected else Accepted
      ensures accepted == if AnyBad(events, bad) then old(accepted) else old(accepted) + events
    {
      if AnyBad(events, bad) {
        r := PayloadRejected;
      } else {
        accepted := accepted + events;
        r := Accepted;
      }
    }
  }

  lemma {:induction false} KeepAppend(a: seq<Event>, b: seq<Event>, p: Event -> bool)
    ensures Keep(a + b, p) == Keep(a, p) + Keep(b, p)
  {
    if a == [] {
      assert a + b == b;
    } else {
      KeepAppend(a[1..], b, p);
      assert a + b == [a[0]] + (a[1..] + b) && (a + b)[1..] == a[1..] + b;
      if p(a[0]) {
        Assoc([a[0]], Keep(a[1..], p), Keep(b, p));
      }
    }
  }

  lemma {:induction false} KeepUniform(events: seq<Event>, p: Event -> bool)
    ensures (forall i | 0 <= i < |events| :: p(events[i])) ==> Keep(events, p) == events
    ensures (forall i | 0 <= i < |events| :: !p(events[i])) ==> Keep(events, p) == []
  {
    if events != [] {
      KeepUniform(events[1..], p);
      assert events == [events[0]] + events[1..];
    }
  }

  lemma {:induction false} NewOnesAppend(stored: seq<Event>, a: seq<Event>, b: seq<Event>)
    ensures NewOnes(stored, a + b) == NewOnes(stored, a) + NewOnes(stored + NewOnes(stored, a), b)
    decreases |a|
  {
    if a == [] {
      assert a + b == b;
      assert stored + NewOnes(stored, a) == stored;
    } else {
      assert (a + b)[1..] == a[1..] + b;
      if Holds(stored, a[0].Id()) {
        NewOnesAppend(stored, a[1..], b);
      } else {
        var rest := NewOnes(stored + [a[0]], a[1..]);
        NewOnesAppend(stored + [a[0]], a[1..], b);
        assert stored + [a[0]] + rest == stored + ([a[0]] + rest);
      }
    }
  }

  function Pow2(n: nat): nat
  {
    if n == 0 then 1 else 2 * Pow2(n - 1)
  }

  lemma {:induction false} Pow2Exceeds(n: nat)
    ensures n >= 8 ==> Pow2(n) >= 256
  {
    if n == 8 {
      assert Pow2(4) == 16 && Pow2(6) == 64;
    } else if n > 8 {
      Pow2Exceeds(n - 1);
    }
  }

  /** What has happened once the first `done` events have left the outbox. */
  ghost predicate Split(bad: Event -> bool, done: seq<Event>, accepted0: seq<Event>, accepted: seq<Event>,
                        quarantined0: seq<Event>, quarantined: seq<Event>)
  {
    && accepted == accepted0 + Keep(done, Good(bad))
    && quarantined == quarantined0 + NewOnes(quarantined0, Keep(done, bad))
  }

  /** A drain under way: `sp0` and `accepted0` are where it began. */
  ghost predicate Draining(bad: Event -> bool, sp0: Spool, accepted0: seq<Event>, sp: Spool, accepted: seq<Event>,
                           done: seq<Event>)
  {
    && Ledger(sp) && Total(sp) <= Total(sp0)
    && Events(sp0.outbox) == done + Events(sp.outbox)
    && Split(bad, done, accepted0, accepted, sp0.quarantined, sp.quarantined)
  }

  lemma DrainAccepted(bad: Event -> bool, sp0: Spool, accepted0: seq<Event>, sp: Spool, accepted: seq<Event>,
                      done: seq<Event>, n: nat)
    requires Draining(bad, sp0, accepted0, sp, accepted, done) && n <= |sp.outbox|
    requires !AnyBad(Events(sp.outbox[..n]), bad)
    ensures var batch := Events(sp.outbox[..n]);
            Draining(bad, sp0, accepted0, Acknowledged(sp, sp.outbox[..n]), accepted + batch, done + batch)
  {
    AcknowledgeKeepsLedger(sp, n);
    Leaves(sp.outbox, n, done);
    SplitAccepted(bad, done, Events(sp.outbox[..n]), accepted0, accepted, sp0.quarantined, sp.quarantined);
  }

  lemma Leaves(rows: seq<Row>, n: nat, done: seq<Event>)
    requires n <= |rows|
    ensures done + Events(rows) == done + Events(rows[..n]) + Events(rows[n..])
  {
    Assoc(done, Events(rows[..n]), Events(rows[n..]));
  }

  lemma SplitAccepted(bad: Event -> bool, done: seq<Event>, batch: seq<Event>, accepted0: seq<Event>,
                      accepted: seq<Event>,
                      quarantined0: seq<Event>, quarantined: seq<Event>)
    requires Split(bad, done, accepted0, accepted, quarantined0, quarantined) && !AnyBad(batch, bad)
    ensures Split(bad, done + batch, accepted0, accepted + batch, quarantined0, quarantined)
  {
    KeepGood(bad, done, batch);
    assert accepted0 + Keep(done, Good(bad)) + batch == accepted0 + (Keep(done, Good(bad)) + batch);
  }

  lemma KeepGood(bad: Event -> bool, done: seq<Event>, batch: seq<Event>)
    requires !AnyBad(batch, bad)
    ensures Keep(done + batch, Good(bad)) == Keep(done, Good(bad)) + batch && Keep(done + batch, bad) == Keep(done, bad)
  {
    KeepAppend(done, batch, Good(bad));
    KeepAppend(done, batch, bad);
    KeepUniform(batch, Good(bad));
    KeepUniform(batch, bad);
  }

  lemma DrainQuarantined(bad: Event -> bool, sp0: Spool, accepted0: seq<Event>, sp: Spool, accepted: seq<Event>,
                         done: seq<Event>)
    requires Draining(bad, sp0, accepted0, sp, accepted, done) && sp.outbox != [] && bad(sp.outbox[0].event)
    ensures Draining(bad, sp0, accepted0, Quarantined(sp, sp.outbox[0]), accepted, done + [sp.outbox[0].event])
  {
    QuarantineKeepsLedger(sp);
    Leaves(sp.outbox, 1, done);
    assert Events(sp.outbox[..1]) == [sp.outbox[0].event];
    SplitQuarantined(bad, done, sp.outbox[0].event, accepted0, accepted, sp0.quarantined, sp.quarantined);
  }

  lemma SplitQuarantined(bad: Event -> bool, done: seq<Event>, e: Event, accepted0: seq<Event>, accepted: seq<Event>,
                         quarantined0: seq<Event>, quarantined: seq<Event>)
    requires Split(bad, done, accepted0, accepted, quarantined0, quarantined) && bad(e)
    ensures Split(bad, done + [e], accepted0, accepted, quarantined0,
                  quarantined + (if Holds(quarantined, e.Id()) then [] else [e]))
  {
    KeepBad(bad, done, e);
    NewOnesAppend(quarantined0, Keep(done, bad), [e]);
    Assoc(quarantined0, NewOnes(quarantined0, Keep(done, bad)), NewOnes(quarantined, [e]));
  }

  lemma KeepBad(bad: Event -> bool, done: seq<Event>, e: Event)
    requires bad(e)
    ensures Keep(done + [e], Good(bad)) == Keep(done, Good(bad)) && Keep(done + [e], bad) == Keep(done, bad) + [e]
  {
    KeepAppend(done, [e], Good(bad));
    KeepAppend(done, [e], bad);
    KeepUniform([e], Good(bad));
    KeepUniform([e], bad);
    assert Keep(done, Good(bad)) + [] == Keep(done, Good(bad));
  }

  /** The batch limit has been halved at least once per failed attempt. */
  ghost predicate Halved(limit: nat, attempts: nat)
  {
    1 <= limit && limit * Pow2(attempts) <= MAX_BATCH_SIZE
  }

  lemma HalvingStep(limit: nat, batch: nat, attempts: nat)
    requires 1 < batch <= limit && Halved(limit, attempts)
    ensures Halved(Max(batch / 2, 1), attempts + 1)
  {
    var p := Pow2(attempts);
    assert (batch / 2) * (2 * p) == (batch / 2 * 2) * p <= limit * p;
  }

  lemma AttemptsBound(limit: nat, attempts: nat)
    requires Halved(limit, attempts)
    ensures attempts < 8
  {
    Pow2Exceeds(attempts);
    assert limit * Pow2(attempts) >= Pow2(attempts);
  }

  /** One delivery attempt and what the uploader does about its outcome. */
  method UploadBatch(spool: HistorySpool, sink: Sink, batch: seq<Row>, batchLimit: nat,
                     ghost start: Spool, ghost accepted0: seq<Event>, ghost done: seq<Event>)
    returns (nextLimit: nat, ghost removed: seq<Event>)
    requires Draining(sink.bad, start, accepted0, spool.State(), sink.accepted, done)
    requires batch == Batch(spool.State(), batchLimit) && batch != []
    modifies spool, sink
    ensures Draining(sink.bad, start, accepted0, spool.State(), sink.accepted, done + removed)
    ensures if removed == [] then 1 < |batch| <= batchLimit && nextLimit == Max(|batch| / 2, 1)
            && spool.outbox == old(spool.outbox)
            else nextLimit == MAX_BATCH_SIZE && |spool.outbox| < |old(spool.outbox)|
  {
    ghost var sp, accepted := spool.State(), sink.accepted;
    var events := Events(batch);
    var delivery := sink.Deliver(events);
    if delivery == Accepted {
      DrainAccepted(sink.bad, start, accepted0, sp, accepted, done, |batch|);
      AcknowledgeKeepsLedger(sp, |batch|);
      spool.Acknowledge(batch);
      nextLimit, removed := MAX_BATCH_SIZE, events;
    } else if |batch| > 1 {
      assert done + [] == done;
      nextLimit, removed := Max(|batch| / 2, 1), [];
    } else {
      assert events[0] == sp.outbox[0].event;
      DrainQuarantined(sink.bad, start, accepted0, sp, accepted, done);
      QuarantineKeepsLedger(sp);
      spool.Quarantine(batch[0]);
      nextLimit, removed := MAX_BATCH_SIZE, [events[0]];
    }
  }

  /** The uploader's loop, told in terms of what has left the outbox so far. */
  method Upload(spool: HistorySpool, sink: Sink, ghost start: Spool, ghost accepted0: seq<Event>)
    returns (ghost done: seq<Event>, ghost longestWait: nat)
    requires Draining(sink.bad, start, accepted0, spool.State(), sink.accepted, [])
    modifies spool, sink
    ensures Draining(sink.bad, start, accepted0, spool.State(), sink.accepted, done)
    ensures spool.outbox == [] && longestWait <= 8
  {
    ghost var attempts := 0;
    done, longestWait := [], 0;
    var batchLimit := MAX_BATCH_SIZE;
    while true
      invariant Draining(sink.bad, start, accepted0, spool.State(), sink.accepted, done)
      invariant 1 <= batchLimit && Halved(batchLimit, attempts) && longestWait <= 8
      decreases |spool.outbox|, batchLimit
    {
      var batch := spool.LoadBatch(batchLimit);
      if batch == [] {
        break;
      }
      AttemptsBound(batchLimit, attempts);
      longestWait := if attempts + 1 > longestWait then attempts + 1 else longestWait;
      var nextLimit;
      ghost var removed;
      nextLimit, removed := UploadBatch(spool, sink, batch, batchLimit, start, accepted0, done);
      if removed == [] {
        HalvingStep(batchLimit, |batch|, attempts);
      }
      done, attempts := done + removed, if removed == [] then attempts + 1 else 0;
      batchLimit := nextLimit;
    }
  }

  /** The uploader, from any outbox to the point where it waits for work.
      It ends; it delivers exactly the good events and quarantines exactly the
      bad ones (once per id), both in order; and it never makes more than eight
      delivery attempts between two removals. */
  method DrainOutbox(spool: HistorySpool, sink: Sink) returns (ghost longestWait: nat)
    requires Ledger(spool.State())
    modifies spool, sink
    ensures Ledger(spool.State()) && spool.outbox == [] && Total(spool.State()) <= old(Total(spool.State()))
    ensures sink.accepted == old(sink.accepted) + Keep(old(Events(spool.outbox)), Good(sink.bad))
    ensures spool.quarantined == old(spool.quarantined) + NewOnes(old(spool.quarantined),
                                                                  Keep(old(Events(spool.outbox)), sink.bad))
    ensures longestWait <= 8
  {
    ghost var start, accepted0 := spool.State(), sink.accepted;
    ghost var done;
    done, longestWait := Upload(spool, sink, start, accepted0);
    DrainEnds(sink.bad, start, accepted0, spool.State(), sink.accepted, done);
  }

  lemma DrainEnds(bad: Event -> bool, sp0: Spool, accepted0: seq<Event>, sp: Spool, accepted: seq<Event>,
                  done: seq<Event>)
    requires Draining(bad, sp0, accepted0, sp, accepted, done) && sp.outbox == []
    ensures Ledger(sp) && Total(sp) <= Total(sp0)
    ensures accepted == accepted0 + Keep(Events(sp0.outbox), Good(bad))
    ensures sp.quarantined == sp0.quarantined + NewOnes(sp0.quarantined, Keep(Events(sp0.outbox), bad))
  {
    assert done + Events([]) == done;
  }
}
